/** `convert` undone: converting a value there and back between compatible units returns
    it, because every pair of entries the table holds in both directions is reciprocal. */
module ConversionRoundTrip {
  import opened Wrappers
  import opened UnitConverter

  /** With a reciprocal table, converting there and back returns the original value. */
  lemma ConvertWithRoundTrip(table: map<(string, string), real>, value: real, na: string, nb: string)
    requires ReciprocalTable(table)
    requires PositiveFactors(table) && ConvertWith(table, value, na, nb).Some?
    ensures ConvertWith(table, ConvertWith(table, value, na, nb).value, nb, na) == Some(value)
  {
    var there := ConvertWith(table, value, na, nb).value;
    if na != nb {
      if (na, nb) in table {
        assert ReciprocalAt(table, na, nb);
        if (nb, na) in table {
          RoundTripBothWays(table, value, there, na, nb);
        } else {
          RoundTripForward(table, value, there, na, nb);
        }
      } else {
        assert ReciprocalAt(table, nb, na);
        RoundTripBackward(table, value, there, na, nb);
      }
    }
  }

  /** One conversion along a direct entry. */
  lemma ForwardStep(table: map<(string, string), real>, value: real, a: string, b: string)
    requires PositiveFactors(table) && a != b && (a, b) in table
    ensures ConvertWith(table, value, a, b) == Some(value * table[(a, b)])
  {
  }

  /** One conversion along a reverse entry only. */
  lemma ReverseStep(table: map<(string, string), real>, value: real, a: string, b: string)
    requires PositiveFactors(table) && a != b && (a, b) !in table && (b, a) in table
    ensures ConvertWith(table, value, a, b) == Some(value / table[(b, a)])
  {
  }

  /** A direct entry whose factor takes `value` to `target` converts it there. */
  lemma ForwardLands(table: map<(string, string), real>, value: real, target: real, a: string, b: string)
    requires PositiveFactors(table) && a != b && (a, b) in table
    requires value * table[(a, b)] == target
    ensures ConvertWith(table, value, a, b) == Some(target)
  {
    ForwardStep(table, value, a, b);
  }

  /** Both directions are in the table and reciprocal. */
  lemma RoundTripBothWays(table: map<(string, string), real>, value: real, there: real, na: string, nb: string)
    requires PositiveFactors(table) && na != nb && (na, nb) in table && (nb, na) in table
    requires table[(na, nb)] * table[(nb, na)] == 1.0
    requires ConvertWith(table, value, na, nb) == Some(there)
    ensures ConvertWith(table, there, nb, na) == Some(value)
  {
    var f, g := table[(na, nb)], table[(nb, na)];
    ForwardStep(table, value, na, nb);
    assert there == value * f;
    MultiplyThenMultiply(value, there, f, g);
    ForwardLands(table, there, value, nb, na);
  }

  /** Only the forward entry exists: multiply, then divide by the same factor. */
  lemma RoundTripForward(table: map<(string, string), real>, value: real, there: real, na: string, nb: string)
    requires PositiveFactors(table) && na != nb && (na, nb) in table && (nb, na) !in table
    requires ConvertWith(table, value, na, nb) == Some(there)
    ensures ConvertWith(table, there, nb, na) == Some(value)
  {
    var f := table[(na, nb)];
    ForwardStep(table, value, na, nb);
    assert there == value * f;
    ReverseStep(table, there, nb, na);
    MultiplyThenDivide(value, there, f);
    var back := there / f;
    assert back == value;
  }

  /** Only the reverse entry exists: divide, then multiply by the same factor. */
  lemma RoundTripBackward(table: map<(string, string), real>, value: real, there: real, na: string, nb: string)
    requires PositiveFactors(table) && na != nb && (na, nb) !in table && (nb, na) in table
    requires ConvertWith(table, value, na, nb) == Some(there)
    ensures ConvertWith(table, there, nb, na) == Some(value)
  {
    var g := table[(nb, na)];
    ReverseStep(table, value, na, nb);
    assert there == value / g;
    DivideThenMultiply(value, there, g);
    ForwardLands(table, there, value, nb, na);
  }

  lemma MultiplyThenMultiply(value: real, there: real, f: real, g: real)
    requires there == value * f && f * g == 1.0
    ensures there * g == value
  {
    assert there * g == value * (f * g);
  }

  lemma MultiplyThenDivide(value: real, there: real, f: real)
    requires there == value * f && f != 0.0
    ensures there / f == value
  {
  }

  lemma DivideThenMultiply(value: real, there: real, g: real)
    requires g != 0.0 && there == value / g
    ensures there * g == value
  {
  }

  /** Converting there and back returns the original value. */
  lemma ConvertRoundTrip(value: real, a: string, b: string)
    requires AreUnitsCompatible(a, b)
    ensures AreUnitsCompatible(b, a)
    ensures Convert(Convert(value, a, b).value, b, a) == Some(value)
  {
    UnitConversionsReciprocal();
    ReciprocalPositive(UnitConversions);
    ConvertWithRoundTrip(UnitConversions, value, NormalizeUnit(a), NormalizeUnit(b));
  }
}
