/** String helpers standing in for the Python `str` methods and the small regular
    expressions the services use. Characters are classified as ASCII: `\d`, `\s`,
    `str.lower()` and `str.isalnum()` are read on their ASCII range only. */
module Text {
  import opened Wrappers

  predicate IsDigit(c: char) { '0' <= c <= '9' }
  predicate IsUpperLetter(c: char) { 'A' <= c <= 'Z' }
  predicate IsLowerLetter(c: char) { 'a' <= c <= 'z' }
  predicate IsLetter(c: char) { IsUpperLetter(c) || IsLowerLetter(c) }
  predicate IsAlnum(c: char) { IsLetter(c) || IsDigit(c) }
  /** `\w`: the characters an identifier or a word boundary is made of. */
  predicate IsWordChar(c: char) { IsAlnum(c) || c == '_' }
  /** `\s` and the characters `str.strip()` removes. */
  predicate IsSpace(c: char) {
    c == ' ' || c == '\t' || c == '\n' || c == '\r' || c == '\U{B}' || c == '\U{C}'
  }

  predicate AllDigits(s: string) { forall i :: 0 <= i < |s| ==> IsDigit(s[i]) }
  predicate AllAlnum(s: string) { forall i :: 0 <= i < |s| ==> IsAlnum(s[i]) }

  function LowerChar(c: char): (r: char)
    ensures !IsUpperLetter(r)
    ensures IsLetter(c) <==> IsLetter(r)
    ensures IsDigit(c) <==> IsDigit(r)
  {
    if IsUpperLetter(c) then (c as int + 32) as char else c
  }

  function UpperChar(c: char): (r: char)
    ensures !IsLowerLetter(r)
  {
    if IsLowerLetter(c) then (c as int - 32) as char else c
  }

  /** `str.lower()` */
  function ToLower(s: string): (r: string)
    ensures |r| == |s|
    ensures forall i :: 0 <= i < |s| ==> r[i] == LowerChar(s[i])
  {
    if s == [] then [] else [LowerChar(s[0])] + ToLower(s[1..])
  }

  /** `str.upper()` */
  function ToUpper(s: string): (r: string)
    ensures |r| == |s|
    ensures forall i :: 0 <= i < |s| ==> r[i] == UpperChar(s[i])
  {
    if s == [] then [] else [UpperChar(s[0])] + ToUpper(s[1..])
  }

  predicate IsLowerCase(s: string) { forall i :: 0 <= i < |s| ==> !IsUpperLetter(s[i]) }

  lemma LowerOfLowerCase(s: string)
    requires IsLowerCase(s)
    ensures ToLower(s) == s
  {
  }

  /** `lower()` leaves no upper-case letter. */
  lemma LowerIsLowerCase(s: string)
    ensures IsLowerCase(ToLower(s))
  {
  }

  lemma LowerIdempotent(s: string)
    ensures ToLower(ToLower(s)) == ToLower(s)
  {
    LowerOfLowerCase(ToLower(s));
  }

  /** `lower()` distributes over concatenation. */
  lemma LowerConcat(a: string, b: string)
    ensures ToLower(a + b) == ToLower(a) + ToLower(b)
  {
  }

  /** `lower()` changes no character outside `A`-`Z`: a lower-cased string holds a
      letter-free string exactly when the string does. */
  lemma ContainsLowerNoLetters(s: string, t: string)
    requires forall k :: 0 <= k < |t| ==> !IsLetter(t[k])
    ensures Contains(ToLower(s), t) <==> Contains(s, t)
  {
    if Contains(s, t) {
      LowerKeepsOccurrence(s, t, Find(s, t));
    }
    if Contains(ToLower(s), t) {
      LowerReflectsOccurrence(s, t, Find(ToLower(s), t));
    }
  }

  lemma LowerKeepsOccurrence(s: string, t: string, j: int)
    requires forall k :: 0 <= k < |t| ==> !IsLetter(t[k])
    requires OccursAt(s, t, j)
    ensures Contains(ToLower(s), t)
  {
    forall k | 0 <= k < |t| ensures ToLower(s)[j + k] == t[k] {
      assert s[j + k] == s[j..j + |t|][k];
    }
    assert ToLower(s)[j..j + |t|] == t;
    ContainsAt(ToLower(s), t, j);
  }

  lemma LowerReflectsOccurrence(s: string, t: string, j: int)
    requires forall k :: 0 <= k < |t| ==> !IsLetter(t[k])
    requires OccursAt(ToLower(s), t, j)
    ensures Contains(s, t)
  {
    forall k | 0 <= k < |t| ensures s[j + k] == t[k] {
      assert ToLower(s)[j + k] == ToLower(s)[j..j + |t|][k];
    }
    assert s[j..j + |t|] == t;
    ContainsAt(s, t, j);
  }

  /** `str.lstrip()` */
  function TrimLeft(s: string): (r: string)
    ensures |r| <= |s|
  {
    if s != [] && IsSpace(s[0]) then TrimLeft(s[1..]) else s
  }

  /** `str.rstrip()` */
  function TrimRight(s: string): (r: string)
    ensures |r| <= |s|
  {
    if s != [] && IsSpace(s[|s| - 1]) then TrimRight(s[..|s| - 1]) else s
  }

  /** `str.strip()` with no argument. */
  function Strip(s: string): (r: string)
    ensures |r| <= |s|
  {
    TrimLeft(TrimRight(s))
  }

  /** `lstrip` removes exactly the leading blanks: a suffix of `s` remains that does not
      start with a blank, and everything before it is blank. */
  lemma {:induction false} TrimLeftShape(s: string)
    ensures TrimLeft(s) == s[|s| - |TrimLeft(s)|..]
    ensures TrimLeft(s) == [] || !IsSpace(TrimLeft(s)[0])
    ensures forall i :: 0 <= i < |s| - |TrimLeft(s)| ==> IsSpace(s[i])
  {
    if s != [] && IsSpace(s[0]) {
      TrimLeftShape(s[1..]);
      assert forall i :: 1 <= i < |s| ==> s[1..][i - 1] == s[i];
    }
  }

  /** `rstrip` removes exactly the trailing blanks. */
  lemma {:induction false} TrimRightShape(s: string)
    ensures TrimRight(s) == s[..|TrimRight(s)|]
    ensures TrimRight(s) == [] || !IsSpace(TrimRight(s)[|TrimRight(s)| - 1])
    ensures forall i :: |TrimRight(s)| <= i < |s| ==> IsSpace(s[i])
  {
    if s != [] && IsSpace(s[|s| - 1]) {
      TrimRightShape(s[..|s| - 1]);
    }
  }

  /** `strip` leaves a slice of `s` with no blank at either end, and removes only blanks. */
  lemma StripShape(s: string)
    ensures exists i :: OccursAt(s, Strip(s), i)
    ensures Strip(s) == [] || (!IsSpace(Strip(s)[0]) && !IsSpace(Strip(s)[|Strip(s)| - 1]))
  {
    var t := TrimRight(s);
    TrimRightShape(s);
    TrimLeftShape(t);
    var u := TrimLeft(t);
    assert Strip(s) == u;
    var i := |t| - |u|;
    assert s[i..i + |u|] == t[i..];
    assert OccursAt(s, u, i);
    if u != [] {
      assert u[|u| - 1] == t[|t| - 1];
    }
  }

  lemma TrimLeftKeepsRight(s: string)
    requires s == [] || !IsSpace(s[|s| - 1])
    ensures TrimLeft(s) == [] || !IsSpace(TrimLeft(s)[|TrimLeft(s)| - 1])
  {
    TrimLeftShape(s);
  }

  lemma StripNoEdgeSpace(s: string)
    requires s == [] || (!IsSpace(s[0]) && !IsSpace(s[|s| - 1]))
    ensures Strip(s) == s
  {
  }

  lemma StripIdempotent(s: string)
    ensures Strip(Strip(s)) == Strip(s)
  {
    StripShape(s);
    StripNoEdgeSpace(Strip(s));
  }

  /** Stripping keeps a lower-case string lower-case. */
  lemma StripKeepsLowerCase(s: string)
    requires IsLowerCase(s)
    ensures IsLowerCase(Strip(s))
  {
    StripShape(s);
  }

  predicate StartsWith(s: string, p: string) { |p| <= |s| && s[..|p|] == p }
  predicate EndsWith(s: string, p: string) { |p| <= |s| && s[|s| - |p|..] == p }

  /** `t` occurs in `s` at index `j`. */
  predicate OccursAt(s: string, t: string, j: int) {
    0 <= j && j + |t| <= |s| && s[j..j + |t|] == t
  }

  /** `str.find(t, i)`: the first index at or after `i` where `t` occurs, or -1. */
  function FindFrom(s: string, t: string, i: nat): (r: int)
    requires i <= |s|
    ensures r == -1 || (i <= r && OccursAt(s, t, r))
    ensures r == -1 ==> forall j :: i <= j ==> !OccursAt(s, t, j)
    ensures r != -1 ==> forall j :: i <= j < r ==> !OccursAt(s, t, j)
    decreases |s| - i
  {
    if i + |t| > |s| then -1
    else if s[i..i + |t|] == t then i
    else FindFrom(s, t, i + 1)
  }

  /** `str.find(t)` */
  function Find(s: string, t: string): (r: int)
    ensures r == -1 || OccursAt(s, t, r)
    ensures r == -1 ==> forall j :: !OccursAt(s, t, j)
    ensures r != -1 ==> forall j :: 0 <= j < r ==> !OccursAt(s, t, j)
  {
    FindFrom(s, t, 0)
  }

  /** `t in s` for strings. */
  predicate Contains(s: string, t: string) { Find(s, t) >= 0 }

  lemma ContainsAt(s: string, t: string, j: int)
    requires OccursAt(s, t, j)
    ensures Contains(s, t)
  {
  }

  /** A string holds the first character of every string it contains. */
  lemma ContainsHead(s: string, t: string)
    requires |t| > 0 && Contains(s, t)
    ensures t[0] in s
  {
    var j := Find(s, t);
    assert s[j] == s[j..j + |t|][0];
  }

  /** A string contains what its prefix contains. */
  lemma ContainsInPrefix(s: string, p: string, t: string)
    requires StartsWith(s, p) && Contains(p, t)
    ensures Contains(s, t)
  {
    var j := Find(p, t);
    forall k | 0 <= k < |t| ensures s[j + k] == t[k] {
      assert s[j + k] == s[..|p|][j + k];
      assert p[j + k] == p[j..j + |t|][k];
    }
    assert s[j..j + |t|] == t;
    ContainsAt(s, t, j);
  }

  /** A string starts with at most one of two prefixes whose first characters differ. */
  lemma StartsWithOneOf(s: string, p: string, q: string)
    requires StartsWith(s, p) && |p| > 0 && |q| > 0 && p[0] != q[0]
    ensures !StartsWith(s, q)
  {
    assert s[..|p|][0] == s[0];
    assert |q| <= |s| ==> s[..|q|][0] == s[0];
  }

  /** A string contains every string it starts with. */
  lemma ContainsPrefix(s: string, p: string)
    requires StartsWith(s, p)
    ensures Contains(s, p)
  {
    ContainsAt(s, p, 0);
  }

  /** A string contains every tail of a string it contains. */
  lemma ContainsTail(s: string, t: string, k: nat)
    requires Contains(s, t) && k <= |t|
    ensures Contains(s, t[k..])
  {
    var j := Find(s, t);
    assert s[j + k..j + |t|] == s[j..j + |t|][k..];
    ContainsAt(s, t[k..], j + k);
  }

  /** An occurrence inside `a` is an occurrence inside `a + b` and `b + a`. */
  lemma ContainsConcat(a: string, b: string, t: string)
    requires Contains(a, t)
    ensures Contains(a + b, t) && Contains(b + a, t)
  {
    var j := Find(a, t);
    assert (a + b)[j..j + |t|] == a[j..j + |t|];
    ContainsAt(a + b, t, j);
    assert (b + a)[|b| + j..|b| + j + |t|] == a[j..j + |t|];
    ContainsAt(b + a, t, |b| + j);
  }

  /** A lower-case pattern found in `s` is found in `s.lower()`. */
  lemma ContainsLower(s: string, t: string)
    requires IsLowerCase(t) && Contains(s, t)
    ensures Contains(ToLower(s), t)
  {
    var j := Find(s, t);
    assert ToLower(s)[j..j + |t|] == t by {
      forall k | 0 <= k < |t| ensures ToLower(s)[j + k] == t[k] {
        assert s[j + k] == t[k];
      }
    }
    ContainsAt(ToLower(s), t, j);
  }

  /** `c in s` for a single character, the `[c] in s` of Python. */
  lemma ContainsChar(s: string, c: char)
    ensures Contains(s, [c]) <==> c in s
  {
    if c in s {
      var j :| 0 <= j < |s| && s[j] == c;
      assert s[j..j + 1] == [c];
      ContainsAt(s, [c], j);
    }
    if Contains(s, [c]) {
      var j := Find(s, [c]);
      assert s[j..j + 1] == [c];
      assert s[j] == c;
    }
  }

  /** `s.split(c)[0]`: everything before the first `c`. */
  function Before(s: string, c: char): (r: string)
    ensures r <= s && c !in r
    ensures |r| < |s| ==> s[|r|] == c
    ensures c !in s ==> r == s
  {
    if s == [] then [] else if s[0] == c then [] else [s[0]] + Before(s[1..], c)
  }

  /** Everything after the first occurrence of `sep`. */
  function After(s: string, sep: string): (r: string)
    requires Contains(s, sep)
    ensures |r| <= |s| && r == s[|s| - |r|..]
  {
    s[Find(s, sep) + |sep|..]
  }

  /** `s.split(sep)` for a non-empty separator. */
  function SplitOn(s: string, sep: string): (parts: seq<string>)
    requires |sep| > 0
    ensures |parts| >= 1 && parts[0] <= s && !Contains(parts[0], sep)
    decreases |s|
  {
    var k := Find(s, sep);
    if k < 0 then
      [s]
    else
      assert !Contains(s[..k], sep) by {
        forall j | OccursAt(s[..k], sep, j) ensures OccursAt(s, sep, j) {
          assert s[j..j + |sep|] == s[..k][j..j + |sep|];
        }
      }
      [s[..k]] + SplitOn(s[k + |sep|..], sep)
  }

  /** `s.replace(pat, rep)`: every non-overlapping occurrence, left to right. */
  function ReplaceAll(s: string, pat: string, rep: string): (r: string)
    requires |pat| > 0
    decreases |s|
  {
    if |s| < |pat| then s
    else if s[..|pat|] == pat then rep + ReplaceAll(s[|pat|..], pat, rep)
    else [s[0]] + ReplaceAll(s[1..], pat, rep)
  }

  /** A character that `pat` does not contain survives the replacement. */
  lemma {:induction false} ReplaceAllKeepsChar(s: string, pat: string, rep: string, c: char)
    requires |pat| > 0 && c !in pat && c in s
    ensures c in ReplaceAll(s, pat, rep)
    decreases |s|
  {
    if |s| < |pat| {
    } else if s[..|pat|] == pat {
      assert c !in s[..|pat|];
      assert s == s[..|pat|] + s[|pat|..];
      ReplaceAllKeepsChar(s[|pat|..], pat, rep, c);
    } else if s[0] == c {
    } else {
      assert c in s[1..];
      ReplaceAllKeepsChar(s[1..], pat, rep, c);
    }
  }

  /** Replacing a string that does not occur changes nothing. */
  lemma {:induction false} ReplaceAllAbsent(s: string, pat: string, rep: string)
    requires |pat| > 0 && !Contains(s, pat)
    ensures ReplaceAll(s, pat, rep) == s
    decreases |s|
  {
    if |s| >= |pat| {
      assert s[0..|pat|] != pat;
      assert !Contains(s[1..], pat) by {
        forall j | OccursAt(s[1..], pat, j) ensures OccursAt(s, pat, 1 + j) {
          assert s[1 + j..1 + j + |pat|] == s[1..][j..j + |pat|];
        }
      }
      ReplaceAllAbsent(s[1..], pat, rep);
    }
  }

  /** Replacing one character by one character, position by position. */
  lemma {:induction false} ReplaceCharAt(s: string, c: char, d: char)
    ensures |ReplaceAll(s, [c], [d])| == |s|
    ensures forall i :: 0 <= i < |s| ==>
      ReplaceAll(s, [c], [d])[i] == (if s[i] == c then d else s[i])
    decreases |s|
  {
    if |s| > 0 {
      ReplaceCharAt(s[1..], c, d);
    }
  }

  /** A character that is neither the replaced one nor in the replacement does not appear. */
  lemma {:induction false} ReplaceCharRemoves(s: string, c: char, by_: string, x: char)
    requires x == c || (x !in s)
    requires x !in by_
    ensures x !in ReplaceAll(s, [c], by_)
    decreases |s|
  {
    if |s| > 0 {
      ReplaceCharRemoves(s[1..], c, by_, x);
    }
  }

  function DigitChar(d: nat): char
    requires d < 10
  {
    ('0' as int + d) as char
  }

  function DigitValue(c: char): nat
    requires IsDigit(c)
  {
    c as int - '0' as int
  }

  /** Decimal spelling of a natural number, as `str(n)`. */
  function NatToString(n: nat): (r: string)
    ensures |r| >= 1 && AllDigits(r)
    decreases n
  {
    if n < 10 then [DigitChar(n)] else NatToString(n / 10) + [DigitChar(n % 10)]
  }

  /** `str(i)` for a Python int. */
  function IntToString(i: int): (r: string)
    ensures |r| >= 1
  {
    if i < 0 then "-" + NatToString(-i) else NatToString(i)
  }

  /** The value of a run of decimal digits. */
  function DigitsValue(s: string): nat
    requires AllDigits(s)
  {
    if s == [] then 0 else DigitsValue(s[..|s| - 1]) * 10 + DigitValue(s[|s| - 1])
  }

  function Pow10(k: nat): (r: nat)
    ensures r >= 1
  {
    if k == 0 then 1 else 10 * Pow10(k - 1)
  }

  /** Length of the run of digits starting at `i`. */
  function DigitRunFrom(s: string, i: nat): (n: nat)
    requires i <= |s|
    ensures i + n <= |s| && AllDigits(s[i..i + n])
    ensures i + n == |s| || !IsDigit(s[i + n])
    decreases |s| - i
  {
    if i < |s| && IsDigit(s[i]) then
      var n := DigitRunFrom(s, i + 1);
      DigitRunCons(s, i, n);
      1 + n
    else 0
  }

  /** A digit in front of a run of digits makes a longer run. */
  lemma DigitRunCons(s: string, i: nat, n: nat)
    requires i < |s| && IsDigit(s[i]) && i + 1 + n <= |s| && AllDigits(s[i + 1..i + 1 + n])
    ensures AllDigits(s[i..i + 1 + n])
  {
    var run, rest := s[i..i + 1 + n], s[i + 1..i + 1 + n];
    forall j | 0 <= j < |run| ensures IsDigit(run[j]) {
      if j > 0 {
        assert run[j] == rest[j - 1];
      }
    }
  }

  /** Index of the first digit, or -1. */
  function FirstDigitIndex(s: string): (r: int)
    ensures -1 <= r < |s|
    ensures r >= 0 ==> IsDigit(s[r]) && forall j :: 0 <= j < r ==> !IsDigit(s[j])
    ensures r == -1 ==> forall j :: 0 <= j < |s| ==> !IsDigit(s[j])
  {
    if s == [] then -1
    else if IsDigit(s[0]) then 0
    else var k := FirstDigitIndex(s[1..]); if k < 0 then -1 else k + 1
  }

  /** `re.search(r'(\d+)', s).group(1)`: the first maximal run of digits. */
  function FirstDigitRun(s: string): (r: Option<string>)
    ensures r.None? <==> forall j :: 0 <= j < |s| ==> !IsDigit(s[j])
    ensures r.Some? ==> |r.value| >= 1 && AllDigits(r.value)
  {
    var i := FirstDigitIndex(s);
    if i < 0 then None else Some(s[i..i + DigitRunFrom(s, i)])
  }

  /** A run of digits that ends at `i + n` has length `n`. */
  lemma {:induction false} DigitRunExact(s: string, i: nat, n: nat)
    requires i + n <= |s| && AllDigits(s[i..i + n])
    requires i + n == |s| || !IsDigit(s[i + n])
    ensures DigitRunFrom(s, i) == n
    decreases n
  {
    if n > 0 {
      assert IsDigit(s[i..i + n][0]);
      assert s[i + 1..i + n] == s[i..i + n][1..];
      DigitRunExact(s, i + 1, n - 1);
    }
  }

  /** `re.search(r'(\d+\.?\d*)', s).group(1)`: the first digit run, a point and the digits after it. */
  function FirstDecimalRun(s: string): (r: Option<string>)
    ensures r.None? <==> forall j :: 0 <= j < |s| ==> !IsDigit(s[j])
    ensures r.Some? ==> IsDecimalRun(r.value)
  {
    var i := FirstDigitIndex(s);
    if i < 0 then None else Some(DecimalRunAt(s, i))
  }

  /** The match of `\d+\.?\d*` that starts at the digit `s[i]`. */
  function DecimalRunAt(s: string, i: nat): (t: string)
    requires i < |s| && IsDigit(s[i])
    ensures IsDecimalRun(t)
  {
    var n := DigitRunFrom(s, i);
    if i + n < |s| && s[i + n] == '.' then
      PointRunIsDecimal(s, i);
      s[i..i + n + 1 + DigitRunFrom(s, i + n + 1)]
    else
      WholeRunIsDecimal(s, i);
      s[i..i + n]
  }

  /** A digit run not followed by a point is matched on its own. */
  lemma WholeRunIsDecimal(s: string, i: nat)
    requires i < |s| && IsDigit(s[i])
    ensures IsDecimalRun(s[i..i + DigitRunFrom(s, i)])
  {
    var n := DigitRunFrom(s, i);
    var t := s[i..i + n];
    assert t[0..n] == t;
    DigitRunExact(t, 0, n);
  }

  /** A digit run followed by a point is matched with the point and the digits after it. */
  lemma PointRunIsDecimal(s: string, i: nat)
    requires i < |s| && IsDigit(s[i])
    requires i + DigitRunFrom(s, i) < |s| && s[i + DigitRunFrom(s, i)] == '.'
    ensures IsDecimalRun(s[i..i + DigitRunFrom(s, i) + 1 + DigitRunFrom(s, i + DigitRunFrom(s, i) + 1)])
  {
    var n := DigitRunFrom(s, i);
    var j := i + n + 1;
    var m := DigitRunFrom(s, j);
    var t := s[i..j + m];
    assert t[0..0 + n] == s[i..i + n];
    assert t[n] == s[i + n];
    assert t[n + 1..] == s[j..j + m];
    PointRunOf(t, n);
  }

  /** Digits, a point and digits make a run `\d+\.?\d*` matches as a whole. */
  lemma PointRunOf(t: string, n: nat)
    requires 1 <= n < |t| && AllDigits(t[0..0 + n]) && t[n] == '.' && AllDigits(t[n + 1..])
    ensures IsDecimalRun(t)
  {
    DigitRunExact(t, 0, n);
  }

  /** The strings `\d+\.?\d*` matches as a whole. */
  predicate IsDecimalRun(s: string) {
    var n := DigitRunFrom(s, 0);
    n >= 1 && (n == |s| || (s[n] == '.' && AllDigits(s[n + 1..])))
  }

  /** The value `float()` gives a run matched by `\d+\.?\d*`. */
  function DecimalRunValue(s: string): real
    requires IsDecimalRun(s)
  {
    var n := DigitRunFrom(s, 0);
    var whole := DigitsValue(s[..n]) as real;
    if n == |s| then whole
    else whole + DigitsValue(s[n + 1..]) as real / Pow10(|s| - n - 1) as real
  }

  /** From position `i` on, an underscore stands only between two digits, as PEP 515
      allows in the text that `int()` and `float()` accept. */
  predicate UnderscoresBetweenDigits(s: string, i: nat)
    requires i <= |s|
    decreases |s| - i
  {
    i == |s|
    || ((s[i] != '_' || (0 < i < |s| - 1 && IsDigit(s[i - 1]) && IsDigit(s[i + 1])))
        && UnderscoresBetweenDigits(s, i + 1))
  }

  /** Text without underscores has none in a wrong place. */
  lemma {:induction false} NoUnderscoresBetween(s: string, i: nat)
    requires i <= |s| && forall k :: i <= k < |s| ==> s[k] != '_'
    ensures UnderscoresBetweenDigits(s, i)
    decreases |s| - i
  {
    if i < |s| {
      NoUnderscoresBetween(s, i + 1);
    }
  }

  /** `s` with its underscores removed. */
  function DropUnderscores(s: string): (r: string)
    ensures |r| <= |s|
    decreases |s|
  {
    if s == [] then [] else (if s[0] == '_' then [] else [s[0]]) + DropUnderscores(s[1..])
  }

  /** Text without underscores is left as it is. */
  lemma {:induction false} DropNoUnderscores(s: string)
    requires forall k :: 0 <= k < |s| ==> s[k] != '_'
    ensures DropUnderscores(s) == s
    decreases |s|
  {
    if s != [] {
      var rest := s[1..];
      assert forall k :: 0 <= k < |rest| ==> rest[k] == s[k + 1];
      DropNoUnderscores(rest);
      assert s == [s[0]] + rest;
    }
  }

  /** Removing underscores keeps every other character. */
  lemma {:induction false} DropKeeps(s: string, k: nat)
    requires k < |s| && s[k] != '_'
    ensures s[k] in DropUnderscores(s)
    decreases k
  {
    if k > 0 {
      assert s[1..][k - 1] == s[k];
      DropKeeps(s[1..], k - 1);
    }
  }

  /** Python's `int(text)` for a string: surrounding white space, an optional sign, and
      digits with single underscores between them. */
  function ParseIntText(text: string): (r: Option<int>)
    ensures r.Some? ==> exists i :: 0 <= i < |text| && IsDigit(text[i])
  {
    var t := Strip(text);
    var neg := |t| > 0 && t[0] == '-';
    var body := if |t| > 0 && (t[0] == '-' || t[0] == '+') then t[1..] else t;
    var digits := DropUnderscores(body);
    if |body| >= 1 && UnderscoresBetweenDigits(body, 0) && AllDigits(digits) then
      assert body[0] in text by {
        StripShape(text);
        assert digits == [body[0]] + DropUnderscores(body[1..]);
        assert IsDigit(digits[0]);
        assert body[0] in t;
      }
      Some(if neg then -(DigitsValue(digits) as int) else DigitsValue(digits) as int)
    else
      None
  }

  /** The mantissas `float()` accepts: digits with an optional fraction, or a point and digits. */
  predicate IsFloatMantissa(s: string) {
    var n := DigitRunFrom(s, 0);
    (n >= 1 && (n == |s| || (s[n] == '.' && AllDigits(s[n + 1..]))))
    || (n == 0 && |s| >= 2 && s[0] == '.' && AllDigits(s[1..]))
  }

  function MantissaValue(s: string): real
    requires IsFloatMantissa(s)
  {
    var n := DigitRunFrom(s, 0);
    var whole := DigitsValue(s[..n]) as real;
    if n == |s| then whole
    else whole + DigitsValue(s[n + 1..]) as real / Pow10(|s| - n - 1) as real
  }

  /** The position of the first exponent mark `e` or `E` from `i` on, or `|s|`. */
  function ExponentMark(s: string, i: nat): (p: nat)
    requires i <= |s|
    ensures i <= p <= |s|
    decreases |s| - i
  {
    if i == |s| || s[i] == 'e' || s[i] == 'E' then i else ExponentMark(s, i + 1)
  }

  /** Without an exponent mark the mantissa runs to the end. */
  lemma {:induction false} NoExponentMark(s: string, i: nat)
    requires i <= |s| && forall k :: i <= k < |s| ==> s[k] != 'e' && s[k] != 'E'
    ensures ExponentMark(s, i) == |s|
    decreases |s| - i
  {
    if i < |s| {
      NoExponentMark(s, i + 1);
    }
  }

  /** The exponent after the mark: an optional sign and at least one digit. */
  function ExponentValue(s: string): Option<int>
  {
    var digits := if |s| > 0 && (s[0] == '-' || s[0] == '+') then s[1..] else s;
    if |digits| >= 1 && AllDigits(digits) then
      Some(if |s| > 0 && s[0] == '-' then -(DigitsValue(digits) as int) else DigitsValue(digits) as int)
    else
      None
  }

  /** Ten to the power `e`, for any integer `e`. */
  function Scale(e: int): real
  {
    if e >= 0 then Pow10(e) as real else 1.0 / Pow10(-e) as real
  }

  /** `float()` of an unsigned text without underscores: a mantissa, then optionally an
      exponent mark and an exponent. */
  function UnsignedFloatValue(b: string): Option<real>
  {
    var p := ExponentMark(b, 0);
    if !IsFloatMantissa(b[..p]) then None
    else if p == |b| then Some(MantissaValue(b[..p]))
    else match ExponentValue(b[p + 1..])
      case None => None
      case Some(e) => Some(MantissaValue(b[..p]) * Scale(e))
  }

  /** Python's `float(text)` for a string: surrounding white space, an optional sign, a
      mantissa and an optional exponent, with single underscores between digits. */
  function ParseFloatText(text: string): (r: Option<real>)
  {
    var t := Strip(text);
    var neg := |t| > 0 && t[0] == '-';
    var body := if |t| > 0 && (t[0] == '-' || t[0] == '+') then t[1..] else t;
    match UnsignedFloatText(body)
    case None => None
    case Some(x) => Some(if neg then -x else x)
  }

  /** `float()` of the unsigned text: its underscores are checked and dropped first. */
  function UnsignedFloatText(body: string): (r: Option<real>)
  {
    if UnderscoresBetweenDigits(body, 0) then UnsignedFloatValue(DropUnderscores(body)) else None
  }

  /** A mantissa holds only digits and a point. */
  lemma MantissaChars(s: string)
    requires IsFloatMantissa(s)
    ensures forall k :: 0 <= k < |s| ==> IsDigit(s[k]) || s[k] == '.'
  {
    var n := DigitRunFrom(s, 0);
    forall k | 0 <= k < |s| ensures IsDigit(s[k]) || s[k] == '.' {
      if k < n {
        assert s[0..0 + n][k] == s[k];
      } else if k > n && n >= 1 {
        assert s[n + 1..][k - n - 1] == s[k];
      } else if k > n {
        assert s[1..][k - 1] == s[k];
      }
    }
  }

  /** `float()` of a bare mantissa is its value. */
  lemma MantissaParses(s: string)
    requires IsFloatMantissa(s)
    ensures ParseFloatText(s) == Some(MantissaValue(s))
  {
    MantissaChars(s);
    StripNoEdgeSpace(s);
    NoUnderscoresBetween(s, 0);
    DropNoUnderscores(s);
    NoExponentMark(s, 0);
    assert s[..|s|] == s;
  }

  /** A decimal run is a mantissa `float()` accepts, with the same value. */
  lemma DecimalRunParses(s: string)
    requires IsDecimalRun(s)
    ensures ParseFloatText(s) == Some(DecimalRunValue(s))
  {
    MantissaParses(s);
  }

  /** `int()` refuses a text with a blank between its first and last character. */
  lemma IntRejectsInnerBlank(s: string, k: nat)
    requires 0 < k < |s| - 1 && s[k] == ' ' && IsDigit(s[0]) && !IsSpace(s[|s| - 1])
    ensures ParseIntText(s).None?
  {
    StripNoEdgeSpace(s);
    DropKeeps(s, k);
  }

  /** `int()` of a run of digits never fails and gives the run's value. */
  lemma DigitRunParsesInt(s: string)
    requires |s| >= 1 && AllDigits(s)
    ensures ParseIntText(s) == Some(DigitsValue(s) as int)
  {
    assert IsDigit(s[0]) && IsDigit(s[|s| - 1]);
    StripNoEdgeSpace(s);
    NoUnderscoresBetween(s, 0);
    DropNoUnderscores(s);
  }
}
