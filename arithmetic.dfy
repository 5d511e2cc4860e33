/** The slice of Python's expression language that a metric formula can still contain
    once its field names are replaced: number literals, `+ - * / // **`, unary signs
    and parentheses, with Python's precedence and associativity. Names are kept as
    variables so that a formula can also be read before substitution. Floats are
    exact reals. */
module Arithmetic {
  import opened Wrappers
  import opened Text

  /** Why `eval` (or the `float()` of its result) fails. */
  datatype Cause =
    | InvalidCharacters     // the whitelist check rejected the text
    | Malformed             // a SyntaxError, or an operand that is not a number
    | DivisionByZero        // ZeroDivisionError
    | NotReal               // a fractional power of a negative number is complex
    | Unmodelled            // a fractional power of a positive number (irrational in general)
    | UnknownName(name: string)

  datatype BinOp = Add | Sub | Mul | Div | FloorDiv | Pow

  datatype Token =
    | Number(value: real)
    | Name(id: string)
    | Symbol(op: BinOp)
    | Open
    | Close

  datatype Expr =
    | Const(value: real)
    | Var(name: string)
    | Neg(operand: Expr)
    | Pos(operand: Expr)
    | Binary(op: BinOp, left: Expr, right: Expr)

  /** A character that may start an identifier. */
  predicate IsNameStart(c: char) { IsLetter(c) || c == '_' }

  /** An identifier `[a-zA-Z_][a-zA-Z0-9_]*`. */
  predicate IsName(s: string) {
    |s| >= 1 && IsNameStart(s[0]) && forall k :: 0 <= k < |s| ==> IsWordChar(s[k])
  }

  /** Length of the run of word characters starting at `i`. */
  function WordRunFrom(s: string, i: nat): (n: nat)
    requires i <= |s|
    ensures i + n <= |s|
    ensures forall k :: i <= k < i + n ==> IsWordChar(s[k])
    ensures i + n == |s| || !IsWordChar(s[i + n])
    decreases |s| - i
  {
    if i < |s| && IsWordChar(s[i]) then 1 + WordRunFrom(s, i + 1) else 0
  }

  /** Where a number literal starting at `i` ends: digits, then optionally a point and
      more digits; or a point followed by digits. */
  function NumberEnd(s: string, i: nat): (e: nat)
    requires i < |s| && (IsDigit(s[i]) || (s[i] == '.' && i + 1 < |s| && IsDigit(s[i + 1])))
    ensures i < e <= |s|
  {
    var n := DigitRunFrom(s, i);
    if i + n < |s| && s[i + n] == '.' then i + n + 1 + DigitRunFrom(s, i + n + 1) else i + n
  }

  /** An integer literal such as `007`, which Python refuses. */
  predicate LeadingZeroLiteral(lit: string) {
    '.' !in lit && |lit| > 1 && lit[0] == '0' && exists k :: 0 <= k < |lit| && lit[k] != '0'
  }

  /** The value of the number literal starting at `i`; a literal running into a letter
      or written with a leading zero is a syntax error. */
  function LiteralAt(s: string, i: nat): (r: Result<real, Cause>)
    requires i < |s| && (IsDigit(s[i]) || (s[i] == '.' && i + 1 < |s| && IsDigit(s[i + 1])))
    ensures r.Failure? ==> r.error == Malformed
  {
    var e := NumberEnd(s, i);
    var lit := s[i..e];
    if e < |s| && IsWordChar(s[e]) then Failure(Malformed)
    else if LeadingZeroLiteral(lit) || !IsFloatMantissa(lit) then Failure(Malformed)
    else Success(MantissaValue(lit))
  }

  function Prepend(t: Token, rest: Result<seq<Token>, Cause>): (r: Result<seq<Token>, Cause>)
    ensures rest.Success? <==> r.Success?
    ensures r.Success? ==> r.value == [t] + rest.value
  {
    match rest
    case Success(ts) => Success([t] + ts)
    case Failure(c) => Failure(c)
  }

  /** Python's tokenizer on `s[i..]`. */
  function Tokenize(s: string, i: nat): (r: Result<seq<Token>, Cause>)
    requires i <= |s|
    decreases |s| - i
  {
    if i == |s| then Success([])
    else
      var c := s[i];
      if c == ' ' then Tokenize(s, i + 1)
      else if IsDigit(c) || (c == '.' && i + 1 < |s| && IsDigit(s[i + 1])) then
        match LiteralAt(s, i)
        case Failure(c) => Failure(c)
        case Success(v) => Prepend(Number(v), Tokenize(s, NumberEnd(s, i)))
      else if IsNameStart(c) then
        var e := i + WordRunFrom(s, i);
        Prepend(Name(s[i..e]), Tokenize(s, e))
      else if c == '*' then
        if i + 1 < |s| && s[i + 1] == '*' then Prepend(Symbol(Pow), Tokenize(s, i + 2))
        else Prepend(Symbol(Mul), Tokenize(s, i + 1))
      else if c == '/' then
        if i + 1 < |s| && s[i + 1] == '/' then Prepend(Symbol(FloorDiv), Tokenize(s, i + 2))
        else Prepend(Symbol(Div), Tokenize(s, i + 1))
      else if c == '+' then Prepend(Symbol(Add), Tokenize(s, i + 1))
      else if c == '-' then Prepend(Symbol(Sub), Tokenize(s, i + 1))
      else if c == '(' then Prepend(Open, Tokenize(s, i + 1))
      else if c == ')' then Prepend(Close, Tokenize(s, i + 1))
      else Failure(Malformed)
  }

  /** A parse of a prefix of `t[p..]`: the tree and the position after it. */
  type Parsed = Result<(Expr, nat), Cause>

  predicate Advances(r: Parsed, t: seq<Token>, p: nat) {
    r.Success? ==> p < r.value.1 <= |t|
  }

  /** `sum: term (('+'|'-') term)*` */
  function ParseSum(t: seq<Token>, p: nat): (r: Parsed)
    requires p <= |t|
    ensures Advances(r, t, p)
    decreases |t| - p, 4
  {
    match ParseTerm(t, p)
    case Failure(c) => Failure(c)
    case Success((lhs, q)) => SumRest(t, q, lhs)
  }

  function SumRest(t: seq<Token>, q: nat, lhs: Expr): (r: Parsed)
    requires q <= |t|
    ensures r.Success? ==> q <= r.value.1 <= |t|
    decreases |t| - q, 5
  {
    if q < |t| && (t[q] == Symbol(Add) || t[q] == Symbol(Sub)) then
      match ParseTerm(t, q + 1)
      case Failure(c) => Failure(c)
      case Success((rhs, q2)) => SumRest(t, q2, Binary(t[q].op, lhs, rhs))
    else
      Success((lhs, q))
  }

  /** `term: factor (('*'|'/'|'//') factor)*` */
  function ParseTerm(t: seq<Token>, p: nat): (r: Parsed)
    requires p <= |t|
    ensures Advances(r, t, p)
    decreases |t| - p, 3
  {
    match ParseUnary(t, p)
    case Failure(c) => Failure(c)
    case Success((lhs, q)) => TermRest(t, q, lhs)
  }

  function TermRest(t: seq<Token>, q: nat, lhs: Expr): (r: Parsed)
    requires q <= |t|
    ensures r.Success? ==> q <= r.value.1 <= |t|
    decreases |t| - q, 5
  {
    if q < |t| && (t[q] == Symbol(Mul) || t[q] == Symbol(Div) || t[q] == Symbol(FloorDiv)) then
      match ParseUnary(t, q + 1)
      case Failure(c) => Failure(c)
      case Success((rhs, q2)) => TermRest(t, q2, Binary(t[q].op, lhs, rhs))
    else
      Success((lhs, q))
  }

  /** `factor: ('+'|'-') factor | power` */
  function ParseUnary(t: seq<Token>, p: nat): (r: Parsed)
    requires p <= |t|
    ensures Advances(r, t, p)
    decreases |t| - p, 2
  {
    if p < |t| && (t[p] == Symbol(Add) || t[p] == Symbol(Sub)) then
      match ParseUnary(t, p + 1)
      case Failure(c) => Failure(c)
      case Success((e, q)) => Success((if t[p] == Symbol(Sub) then Neg(e) else Pos(e), q))
    else
      ParsePower(t, p)
  }

  /** `power: atom ['**' factor]`, so `**` binds tighter than a unary sign on its left
      and groups to the right. */
  function ParsePower(t: seq<Token>, p: nat): (r: Parsed)
    requires p <= |t|
    ensures Advances(r, t, p)
    decreases |t| - p, 1
  {
    match ParseAtom(t, p)
    case Failure(c) => Failure(c)
    case Success((a, q)) =>
      if q < |t| && t[q] == Symbol(Pow) then
        match ParseUnary(t, q + 1)
        case Failure(c) => Failure(c)
        case Success((b, q2)) => Success((Binary(Pow, a, b), q2))
      else
        Success((a, q))
  }

  /** `atom: NUMBER | NAME | '(' sum ')'` */
  function ParseAtom(t: seq<Token>, p: nat): (r: Parsed)
    requires p <= |t|
    ensures Advances(r, t, p)
    decreases |t| - p, 0
  {
    if p == |t| then Failure(Malformed)
    else match t[p]
      case Number(v) => Success((Const(v), p + 1))
      case Name(n) => Success((Var(n), p + 1))
      case Open =>
        (match ParseSum(t, p + 1)
         case Failure(c) => Failure(c)
         case Success((e, q)) =>
           if q < |t| && t[q] == Close then Success((e, q + 1)) else Failure(Malformed))
      case _ => Failure(Malformed)
  }

  /** The whole token list must be one expression. */
  function Parse(t: seq<Token>): (r: Result<Expr, Cause>)
    ensures r.Success? ==> |t| >= 1
  {
    match ParseSum(t, 0)
    case Failure(c) => Failure(c)
    case Success((e, q)) => if q == |t| then Success(e) else Failure(Malformed)
  }

  /** `x ** n` for a natural exponent. */
  function RealPow(x: real, n: nat): (r: real)
    ensures x != 0.0 ==> r != 0.0
    ensures n >= 1 && x == 0.0 ==> r == 0.0
  {
    if n == 0 then 1.0 else x * RealPow(x, n - 1)
  }

  /** `x ** y`. */
  function Power(x: real, y: real): (r: Result<real, Cause>)
    ensures r == Failure(DivisionByZero) <==> x == 0.0 && y < 0.0
    ensures y == y.Floor as real && y >= 0.0 ==> r.Success?
  {
    if y == y.Floor as real then
      var n := y.Floor;
      if n >= 0 then Success(RealPow(x, n))
      else if x == 0.0 then Failure(DivisionByZero)
      else Success(1.0 / RealPow(x, -n))
    else if x == 0.0 then
      if y > 0.0 then Success(0.0) else Failure(DivisionByZero)
    else if x < 0.0 then Failure(NotReal)
    else Failure(Unmodelled)
  }

  function Apply(op: BinOp, x: real, y: real): (r: Result<real, Cause>)
    ensures (op == Div || op == FloorDiv) ==> (r.Failure? <==> y == 0.0)
    ensures r.Success? && op == Div ==> r.value * y == x
    ensures r.Success? && op == FloorDiv ==> r.value <= x / y < r.value + 1.0
  {
    match op
    case Add => Success(x + y)
    case Sub => Success(x - y)
    case Mul => Success(x * y)
    case Div => if y == 0.0 then Failure(DivisionByZero) else Success(x / y)
    case FloorDiv => if y == 0.0 then Failure(DivisionByZero) else Success((x / y).Floor as real)
    case Pow => Power(x, y)
  }

  /** Evaluation, operands left to right, names looked up in `env`. */
  function Eval(e: Expr, env: map<string, real>): (r: Result<real, Cause>)
  {
    match e
    case Const(v) => Success(v)
    case Var(n) => if n in env then Success(env[n]) else Failure(UnknownName(n))
    case Neg(a) =>
      (match Eval(a, env)
       case Success(x) => Success(-x)
       case Failure(c) => Failure(c))
    case Pos(a) => Eval(a, env)
    case Binary(op, l, r) =>
      match Eval(l, env)
      case Failure(c) => Failure(c)
      case Success(x) =>
        match Eval(r, env)
        case Failure(c) => Failure(c)
        case Success(y) => Apply(op, x, y)
  }

  /** `eval(s)` followed by `float(...)`. */
  function EvaluateText(s: string, env: map<string, real>): (r: Result<real, Cause>)
  {
    match Tokenize(s, 0)
    case Failure(c) => Failure(c)
    case Success(toks) =>
      match Parse(toks)
      case Failure(c) => Failure(c)
      case Success(e) => Eval(e, env)
  }

  lemma {:induction false} DigitRunToEnd(s: string, i: nat)
    requires i <= |s| && forall k :: i <= k < |s| ==> IsDigit(s[k])
    ensures DigitRunFrom(s, i) == |s| - i
    decreases |s| - i
  {
    if i < |s| {
      DigitRunToEnd(s, i + 1);
    }
  }

  lemma {:induction false} WordRunToEnd(s: string, i: nat)
    requires i <= |s| && forall k :: i <= k < |s| ==> IsWordChar(s[k])
    ensures WordRunFrom(s, i) == |s| - i
    decreases |s| - i
  {
    if i < |s| {
      WordRunToEnd(s, i + 1);
    }
  }

  /** The digits of `str(n)` are worth `n`. */
  lemma {:induction false} NatToStringValue(n: nat)
    ensures DigitsValue(NatToString(n)) == n
    decreases n
  {
    if n >= 10 {
      var s := NatToString(n);
      assert s[..|s| - 1] == NatToString(n / 10);
      NatToStringValue(n / 10);
    }
  }

  /** `str(n)` has no leading zero. */
  lemma {:induction false} NatToStringLead(n: nat)
    ensures |NatToString(n)| > 1 ==> NatToString(n)[0] != '0'
    decreases n
  {
    if n >= 10 {
      NatToStringLead(n / 10);
    }
  }

  /** A run of digits `s[i..j]` ending where no literal can continue is one number token. */
  lemma DigitsToken(s: string, i: nat, j: nat)
    requires i < j <= |s| && forall k :: i <= k < j ==> IsDigit(s[k])
    requires j < |s| ==> !IsWordChar(s[j]) && s[j] != '.'
    requires s[i] != '0' || j == i + 1
    ensures Tokenize(s, i) == Prepend(Number(DigitsValue(s[i..j]) as real), Tokenize(s, j))
  {
    DigitsLiteral(s, i, j);
  }

  lemma DigitsLiteral(s: string, i: nat, j: nat)
    requires i < j <= |s| && forall k :: i <= k < j ==> IsDigit(s[k])
    requires j < |s| ==> !IsWordChar(s[j]) && s[j] != '.'
    requires s[i] != '0' || j == i + 1
    ensures NumberEnd(s, i) == j
    ensures LiteralAt(s, i) == Success(DigitsValue(s[i..j]) as real)
  {
    var lit := s[i..j];
    DigitRunToEnd(s[..j], i);
    DigitRunPrefix(s, j, i);
    assert AllDigits(lit);
    DigitRunToEnd(lit, 0);
    assert lit[..|lit|] == lit;
    assert !LeadingZeroLiteral(lit);
  }

  lemma {:induction false} DigitRunPrefix(s: string, j: nat, i: nat)
    requires i <= j <= |s|
    requires j < |s| ==> !IsDigit(s[j])
    ensures DigitRunFrom(s, i) == DigitRunFrom(s[..j], i)
    decreases j - i
  {
    if i < j {
      DigitRunPrefix(s, j, i + 1);
    }
  }

  /** `str(n)` is read back as the literal `n`. */
  lemma NatLiteralToken(s: string, i: nat, n: nat)
    requires i <= |s| && s[i..] == NatToString(n)
    ensures Tokenize(s, i) == Success([Number(n as real)])
  {
    var lit := NatToString(n);
    assert s[i..|s|] == lit;
    assert forall k :: i <= k < |s| ==> IsDigit(s[k]) by {
      forall k | i <= k < |s| ensures IsDigit(s[k]) {
        assert s[k] == lit[k - i];
      }
    }
    NatToStringLead(n);
    assert s[i] == lit[0];
    DigitsToken(s, i, |s|);
    NatToStringValue(n);
    assert Tokenize(s, |s|) == Success([]);
    assert [Number(n as real)] + [] == [Number(n as real)];
  }

  lemma ParseOneNumber(v: real)
    ensures Parse([Number(v)]) == Success(Const(v))
  {
    var t := [Number(v)];
    assert ParseAtom(t, 0) == Success((Const(v), 1));
    assert ParsePower(t, 0) == Success((Const(v), 1));
    assert ParseUnary(t, 0) == Success((Const(v), 1));
    assert ParseTerm(t, 0) == Success((Const(v), 1));
    assert TermRest(t, 1, Const(v)) == Success((Const(v), 1));
    assert SumRest(t, 1, Const(v)) == Success((Const(v), 1));
    assert ParseSum(t, 0) == Success((Const(v), 1));
  }

  lemma ParseNegatedNumber(v: real)
    ensures Parse([Symbol(Sub), Number(v)]) == Success(Neg(Const(v)))
  {
    var t := [Symbol(Sub), Number(v)];
    assert ParseAtom(t, 1) == Success((Const(v), 2));
    assert ParsePower(t, 1) == Success((Const(v), 2));
    assert ParseUnary(t, 1) == Success((Const(v), 2));
    assert ParseUnary(t, 0) == Success((Neg(Const(v)), 2));
    assert ParseTerm(t, 0) == Success((Neg(Const(v)), 2));
    assert TermRest(t, 2, Neg(Const(v))) == Success((Neg(Const(v)), 2));
    assert SumRest(t, 2, Neg(Const(v))) == Success((Neg(Const(v)), 2));
    assert ParseSum(t, 0) == Success((Neg(Const(v)), 2));
  }

  lemma ParseOneName(n: string)
    ensures Parse([Name(n)]) == Success(Var(n))
  {
    var t := [Name(n)];
    assert ParseAtom(t, 0) == Success((Var(n), 1));
    assert ParsePower(t, 0) == Success((Var(n), 1));
    assert ParseUnary(t, 0) == Success((Var(n), 1));
    assert ParseTerm(t, 0) == Success((Var(n), 1));
    assert TermRest(t, 1, Var(n)) == Success((Var(n), 1));
    assert SumRest(t, 1, Var(n)) == Success((Var(n), 1));
    assert ParseSum(t, 0) == Success((Var(n), 1));
  }

  /** `float(eval(str(i))) == i`: the spelling of an int evaluates back to it. */
  lemma IntSpellingRoundTrip(i: int, env: map<string, real>)
    ensures EvaluateText(IntToString(i), env) == Success(i as real)
  {
    var s := IntToString(i);
    if i >= 0 {
      assert s[0..] == NatToString(i);
      NatLiteralToken(s, 0, i);
      ParseOneNumber(i as real);
      assert Eval(Const(i as real), env) == Success(i as real);
    } else {
      assert s[1..] == NatToString(-i);
      NatLiteralToken(s, 1, -i);
      assert [Symbol(Sub)] + [Number((-i) as real)] == [Symbol(Sub), Number((-i) as real)];
      assert Tokenize(s, 0) == Success([Symbol(Sub), Number((-i) as real)]);
      ParseNegatedNumber((-i) as real);
      assert Eval(Neg(Const((-i) as real)), env) == Success(i as real);
    }
  }

  /** An identifier alone is one name token. */
  lemma NameTokens(n: string)
    requires IsName(n)
    ensures Tokenize(n, 0) == Success([Name(n)])
  {
    WordRunToEnd(n, 0);
    assert n[0..|n|] == n;
    assert !IsDigit(n[0]) && n[0] != ' ' && n[0] != '.';
    assert Tokenize(n, |n|) == Success([]);
    assert Tokenize(n, 0) == Prepend(Name(n[0..|n|]), Tokenize(n, |n|));
    assert [Name(n)] + [] == [Name(n)];
  }

  /** How the tokenizer reads an operator character. */
  lemma OperatorToken(s: string, i: nat)
    requires i < |s|
    ensures s[i] == '+' ==> Tokenize(s, i) == Prepend(Symbol(Add), Tokenize(s, i + 1))
    ensures s[i] == '-' ==> Tokenize(s, i) == Prepend(Symbol(Sub), Tokenize(s, i + 1))
    ensures s[i] == '*' && i + 1 < |s| && s[i + 1] == '*' ==>
      Tokenize(s, i) == Prepend(Symbol(Pow), Tokenize(s, i + 2))
    ensures s[i] == '/' && i + 1 < |s| && s[i + 1] == '/' ==>
      Tokenize(s, i) == Prepend(Symbol(FloorDiv), Tokenize(s, i + 2))
    ensures s[i] == '/' && (i + 1 == |s| || s[i + 1] != '/') ==>
      Tokenize(s, i) == Prepend(Symbol(Div), Tokenize(s, i + 1))
  {
  }

  /** A number followed by a `+`, a `-`, a `)` or the end is a whole term. */
  lemma NumberTerm(t: seq<Token>, p: nat)
    requires p < |t| && t[p].Number?
    requires p + 1 == |t| || t[p + 1] in {Symbol(Add), Symbol(Sub), Close}
    ensures ParseTerm(t, p) == Success((Const(t[p].value), p + 1))
  {
    var a := Const(t[p].value);
    assert ParseAtom(t, p) == Success((a, p + 1));
    assert ParsePower(t, p) == Success((a, p + 1));
    assert ParseUnary(t, p) == Success((a, p + 1));
    assert TermRest(t, p + 1, a) == Success((a, p + 1));
  }

  /** A number followed by a `*`, a `/` or a `//`. */
  lemma NumberFactor(t: seq<Token>, p: nat)
    requires p < |t| && t[p].Number?
    requires p + 1 == |t| || t[p + 1] in {Symbol(Add), Symbol(Sub), Symbol(Mul), Symbol(Div), Symbol(FloorDiv), Close}
    ensures ParseUnary(t, p) == Success((Const(t[p].value), p + 1))
  {
    var a := Const(t[p].value);
    assert ParseAtom(t, p) == Success((a, p + 1));
    assert ParsePower(t, p) == Success((a, p + 1));
  }

  /** A single digit followed by an operator, a parenthesis, a space or the end. */
  lemma DigitToken(s: string, i: nat)
    requires i < |s| && IsDigit(s[i])
    requires i + 1 < |s| ==> s[i + 1] in {'+', '-', '*', '/', '(', ')', ' '}
    ensures Tokenize(s, i) == Prepend(Number(DigitValue(s[i]) as real), Tokenize(s, i + 1))
  {
    DigitsToken(s, i, i + 1);
    assert s[i..i + 1] == [s[i]];
    assert DigitsValue([s[i]]) == DigitValue(s[i]) by {
      assert [s[i]][..0] == [];
    }
  }

  /** A single digit in front of tokens already known. */
  lemma DigitThen(s: string, i: nat, v: real, rest: seq<Token>, r: seq<Token>)
    requires i < |s| && IsDigit(s[i]) && DigitValue(s[i]) as real == v
    requires i + 1 < |s| ==> s[i + 1] in {'+', '-', '*', '/', '(', ')', ' '}
    requires Tokenize(s, i + 1) == Success(rest) && r == [Number(v)] + rest
    ensures Tokenize(s, i) == Success(r)
  {
    DigitToken(s, i);
  }

  /** A run of digits in front of tokens already known. */
  lemma DigitsThen(s: string, i: nat, j: nat, v: real, rest: seq<Token>, r: seq<Token>)
    requires i < j <= |s| && forall k :: i <= k < j ==> IsDigit(s[k])
    requires j < |s| ==> !IsWordChar(s[j]) && s[j] != '.'
    requires s[i] != '0' || j == i + 1
    requires DigitsValue(s[i..j]) as real == v
    requires Tokenize(s, j) == Success(rest) && r == [Number(v)] + rest
    ensures Tokenize(s, i) == Success(r)
  {
    DigitsToken(s, i, j);
  }

  /** A digit that ends the text is the last token. */
  lemma LastDigit(s: string, i: nat, v: real)
    requires i + 1 == |s| && IsDigit(s[i]) && DigitValue(s[i]) as real == v
    ensures Tokenize(s, i) == Success([Number(v)])
  {
    assert Tokenize(s, i + 1) == Success([]);
    assert [Number(v)] + [] == [Number(v)];
    DigitThen(s, i, v, [], [Number(v)]);
  }

  /** A `+` in front of tokens already known. */
  lemma AddThen(s: string, i: nat, rest: seq<Token>, r: seq<Token>)
    requires i < |s| && s[i] == '+'
    requires Tokenize(s, i + 1) == Success(rest) && r == [Symbol(Add)] + rest
    ensures Tokenize(s, i) == Success(r)
  {
    OperatorToken(s, i);
  }

  /** A `-` in front of tokens already known. */
  lemma SubThen(s: string, i: nat, rest: seq<Token>, r: seq<Token>)
    requires i < |s| && s[i] == '-'
    requires Tokenize(s, i + 1) == Success(rest) && r == [Symbol(Sub)] + rest
    ensures Tokenize(s, i) == Success(r)
  {
    OperatorToken(s, i);
  }

  /** A single `/` in front of tokens already known. */
  lemma DivThen(s: string, i: nat, rest: seq<Token>, r: seq<Token>)
    requires i < |s| && s[i] == '/' && (i + 1 == |s| || s[i + 1] != '/')
    requires Tokenize(s, i + 1) == Success(rest) && r == [Symbol(Div)] + rest
    ensures Tokenize(s, i) == Success(r)
  {
    OperatorToken(s, i);
  }

  /** A `**` in front of tokens already known. */
  lemma PowThen(s: string, i: nat, rest: seq<Token>, r: seq<Token>)
    requires i + 1 < |s| && s[i] == '*' && s[i + 1] == '*'
    requires Tokenize(s, i + 2) == Success(rest) && r == [Symbol(Pow)] + rest
    ensures Tokenize(s, i) == Success(r)
  {
    OperatorToken(s, i);
  }

  /** A `//` in front of tokens already known. */
  lemma FloorDivThen(s: string, i: nat, rest: seq<Token>, r: seq<Token>)
    requires i + 1 < |s| && s[i] == '/' && s[i + 1] == '/'
    requires Tokenize(s, i + 2) == Success(rest) && r == [Symbol(FloorDiv)] + rest
    ensures Tokenize(s, i) == Success(r)
  {
    OperatorToken(s, i);
  }

  /** The value of a two-digit run. */
  lemma TwoDigits(d: string)
    requires |d| == 2 && IsDigit(d[0]) && IsDigit(d[1])
    ensures DigitsValue(d) == DigitValue(d[0]) * 10 + DigitValue(d[1])
  {
    assert d[..1][..0] == [];
    assert d[..|d| - 1] == d[..1] && d[|d| - 1] == d[1];
    assert DigitsValue(d[..1]) == DigitsValue(d[..1][..0]) * 10 + DigitValue(d[0]);
  }
}
