/** Unit handling: alias normalisation, the static conversion table, conversion, and
    picking a unit token out of a value string such as "1.6 gallons" or "2000W". */
module UnitConverter {
  import opened Wrappers
  import opened Text
  import opened Values

  // The conversion table, section by section: (from, to) to the factor a value in `from`
  // is multiplied by. No two sections share a unit.

  const VolumeConversions: map<(string, string), real> := map[
    ("gallons", "liters") := 3.78541,
    ("gal", "liters") := 3.78541,
    ("liters", "gallons") := 1.0 / 3.78541,
    ("L", "gallons") := 1.0 / 3.78541,
    ("liters", "gal") := 1.0 / 3.78541,
    ("L", "gal") := 1.0 / 3.78541
  ]
  const VolumeUnits: set<string> := {"gallons", "gal", "liters", "L"}

  const WeightConversions: map<(string, string), real> := map[
    ("lbs", "kg") := 0.453592,
    ("pounds", "kg") := 0.453592,
    ("lb", "kg") := 0.453592,
    ("kg", "lbs") := 1.0 / 0.453592,
    ("kg", "pounds") := 1.0 / 0.453592,
    ("kg", "lb") := 1.0 / 0.453592,
    ("kilograms", "lbs") := 1.0 / 0.453592,
    ("kilograms", "pounds") := 1.0 / 0.453592,
    ("oz", "lbs") := 1.0 / 16.0,
    ("ounces", "lbs") := 1.0 / 16.0,
    ("lbs", "oz") := 16.0,
    ("pounds", "oz") := 16.0
  ]
  const WeightUnits: set<string> := {"lbs", "pounds", "lb", "kg", "kilograms", "oz", "ounces"}

  const InchConversions: map<(string, string), real> := map[
    ("inches", "cm") := 2.54,
    ("in", "cm") := 2.54,
    ("cm", "inches") := 1.0 / 2.54,
    ("cm", "in") := 1.0 / 2.54,
    ("centimeters", "inches") := 1.0 / 2.54
  ]
  const InchUnits: set<string> := {"inches", "in", "cm", "centimeters"}

  const FootConversions: map<(string, string), real> := map[
    ("feet", "meters") := 0.3048,
    ("ft", "meters") := 0.3048,
    ("meters", "feet") := 1.0 / 0.3048,
    ("m", "feet") := 1.0 / 0.3048,
    ("meters", "ft") := 1.0 / 0.3048
  ]
  const FootUnits: set<string> := {"feet", "ft", "meters", "m"}

  const PowerConversions: map<(string, string), real> := map[
    ("kW", "W") := 1000.0,
    ("kilowatts", "W") := 1000.0,
    ("W", "kW") := 1.0 / 1000.0,
    ("watts", "kW") := 1.0 / 1000.0
  ]
  const PowerUnits: set<string> := {"kW", "kilowatts", "W", "watts"}

  const CurrencyConversions: map<(string, string), real> := map[
    ("USD", "USD") := 1.0,
    ("$", "USD") := 1.0,
    ("cents", "USD") := 1.0 / 100.0,
    ("USD", "cents") := 100.0
  ]
  const CurrencyUnits: set<string> := {"USD", "$", "cents"}

  /** The whole table. */
  const UnitConversions: map<(string, string), real> :=
    VolumeConversions + WeightConversions + InchConversions + FootConversions
    + PowerConversions + CurrencyConversions

  /** The alias dictionary: a spelling to its canonical unit. */
  const UnitAliases: map<string, string> := map[
    "gal" := "gallons", "gallon" := "gallons",
    "L" := "liters", "liter" := "liters", "litre" := "liters",
    "lb" := "lbs", "pound" := "lbs", "pounds" := "lbs",
    "kg" := "kg", "kilogram" := "kg", "kilograms" := "kg",
    "oz" := "oz", "ounce" := "oz", "ounces" := "oz",
    "in" := "inches", "inch" := "inches",
    "cm" := "cm", "centimeter" := "cm", "centimeters" := "cm",
    "ft" := "feet", "foot" := "feet",
    "m" := "meters", "meter" := "meters", "metre" := "meters",
    "W" := "W", "watt" := "W", "watts" := "W",
    "kW" := "kW", "kilowatt" := "kW", "kilowatts" := "kW",
    "$" := "USD", "usd" := "USD", "dollars" := "USD", "dollar" := "USD"
  ]

  /** The order in which iterating over the alias dictionary visits its keys. */
  const UnitAliasOrder: seq<string> := [
    "gal", "gallon", "L", "liter", "litre", "lb", "pound", "pounds", "kg", "kilogram",
    "kilograms", "oz", "ounce", "ounces", "in", "inch", "cm", "centimeter", "centimeters",
    "ft", "foot", "m", "meter", "metre", "W", "watt", "watts", "kW", "kilowatt", "kilowatts",
    "$", "usd", "dollars", "dollar"
  ]

  /** The canonical units every alias resolves to. */
  const CanonicalUnits: set<string> :=
    {"gallons", "liters", "lbs", "kg", "oz", "inches", "cm", "feet", "meters", "W", "kW", "USD"}

  /** The iteration order visits exactly the keys of the dictionary. */
  lemma AliasOrderIsKeys()
    ensures forall i :: 0 <= i < |UnitAliasOrder| ==> UnitAliasOrder[i] in UnitAliases
    ensures forall a :: a in UnitAliases ==> a in UnitAliasOrder
  {
  }

  /** Every alias resolves to a canonical unit. */
  lemma AliasTargetsCanonical(a: string)
    requires a in UnitAliases
    ensures UnitAliases[a] in CanonicalUnits
  {
  }

  /** All alias keys but "L", "W" and "kW" are written in lower case. */
  lemma AliasKeysLowerCase(a: string)
    requires a in UnitAliases && a !in {"L", "W", "kW"}
    ensures IsLowerCase(a)
  {
    AliasKeyGroups(a);
    if a in VolumeWeightKeys {
      VolumeWeightKeysLowerCase(a);
    } else if a in LengthKeys {
      LengthKeysLowerCase(a);
    } else {
      PowerCurrencyKeysLowerCase(a);
    }
  }

  const VolumeWeightKeys: set<string> := {"gal", "gallon", "liter", "litre", "lb", "pound",
    "pounds", "kg", "kilogram", "kilograms", "oz", "ounce", "ounces"}
  const LengthKeys: set<string> := {"in", "inch", "cm", "centimeter", "centimeters", "ft",
    "foot", "m", "meter", "metre"}
  const PowerCurrencyKeys: set<string> := {"watt", "watts", "kilowatt", "kilowatts", "$",
    "usd", "dollars", "dollar"}

  /** The alias keys fall into the three groups of lower-case spellings and the three
      capitalised keys. */
  lemma AliasKeyGroups(a: string)
    requires a in UnitAliases
    ensures a in VolumeWeightKeys || a in LengthKeys || a in PowerCurrencyKeys || a in {"L", "W", "kW"}
  {
  }

  lemma VolumeWeightKeysLowerCase(a: string)
    requires a in VolumeWeightKeys
    ensures IsLowerCase(a)
  {
  }

  lemma LengthKeysLowerCase(a: string)
    requires a in LengthKeys
    ensures IsLowerCase(a)
  {
  }

  lemma PowerCurrencyKeysLowerCase(a: string)
    requires a in PowerCurrencyKeys
    ensures IsLowerCase(a)
  {
  }

  /** The loop over the alias keys: the first key whose lower-case spelling is `key`. */
  function LookupFolded(keys: seq<string>, key: string): (r: Option<string>)
    ensures r.None? <==> forall i :: 0 <= i < |keys| ==> ToLower(keys[i]) != key
    ensures r.Some? ==> r.value in keys && ToLower(r.value) == key
    ensures r.Some? ==> exists i ::
      0 <= i < |keys| && keys[i] == r.value && forall j :: 0 <= j < i ==> ToLower(keys[j]) != key
  {
    if keys == [] then None
    else if ToLower(keys[0]) == key then Some(keys[0])
    else
      var r := LookupFolded(keys[1..], key);
      LookupFoldedStep(keys, key, r);
      r
  }

  /** A hit in the tail of the keys is a hit in the keys, past a head that missed. */
  lemma LookupFoldedStep(keys: seq<string>, key: string, r: Option<string>)
    requires keys != [] && ToLower(keys[0]) != key
    requires r.None? <==> forall i :: 0 <= i < |keys| - 1 ==> ToLower(keys[1..][i]) != key
    requires r.Some? ==> r.value in keys[1..] && ToLower(r.value) == key
    requires r.Some? ==> exists i ::
      0 <= i < |keys| - 1 && keys[1..][i] == r.value && forall j :: 0 <= j < i ==> ToLower(keys[1..][j]) != key
    ensures r.None? <==> forall i :: 0 <= i < |keys| ==> ToLower(keys[i]) != key
    ensures r.Some? ==> r.value in keys
    ensures r.Some? ==> exists i ::
      0 <= i < |keys| && keys[i] == r.value && forall j :: 0 <= j < i ==> ToLower(keys[j]) != key
  {
    if r.None? {
      forall i | 0 <= i < |keys| ensures ToLower(keys[i]) != key {
        if i > 0 {
          assert keys[i] == keys[1..][i - 1];
        }
      }
    } else {
      var i :| 0 <= i < |keys| - 1 && keys[1..][i] == r.value
        && forall j :: 0 <= j < i ==> ToLower(keys[1..][j]) != key;
      forall j | 0 <= j < i + 1 ensures ToLower(keys[j]) != key {
        if j > 0 {
          assert keys[j] == keys[1..][j - 1];
        }
      }
      assert keys[i + 1] == r.value;
    }
  }

  /** What the case-insensitive pass over the alias keys yields for a lower-case spelling
      the dictionary lookup missed: only the three keys written with capitals can match
      (`FoldedLookupCases` proves this equal to `LookupFolded(UnitAliasOrder, t)`). */
  function FoldedAlias(t: string): (r: Option<string>)
    ensures r.Some? ==> r.value in UnitAliases && ToLower(r.value) == t
  {
    CapitalKeysLowered();
    if t == "l" then Some("L") else if t == "w" then Some("W")
    else if t == "kw" then Some("kW") else None
  }

  /** `normalize_unit`: lower-case and trim, then resolve an alias, first by dictionary
      lookup and then by a case-insensitive pass over the keys; an unknown unit comes back
      lower-cased and trimmed. */
  function NormalizeUnit(unit: string): (r: string)
    ensures unit == "" ==> r == ""
    ensures r in CanonicalUnits || r == Strip(ToLower(unit))
  {
    if unit == "" then ""
    else
      var unitLower := Strip(ToLower(unit));
      if unitLower in UnitAliases then
        AliasTargetsCanonical(unitLower);
        UnitAliases[unitLower]
      else
        match FoldedAlias(unitLower)
        case Some(alias) =>
          AliasTargetsCanonical(alias);
          UnitAliases[alias]
        case None => unitLower
  }

  /** For a lower-case spelling that is not a key, the case-insensitive pass finds only
      the three keys written with capitals. */
  lemma FoldedLookupCases(t: string)
    requires IsLowerCase(t) && t !in UnitAliases
    ensures LookupFolded(UnitAliasOrder, t) == FoldedAlias(t)
  {
    if LookupFolded(UnitAliasOrder, t).Some? {
      FoldedLookupHit(t);
    } else {
      CapitalKeysFound(t);
    }
  }

  lemma FoldedLookupHit(t: string)
    requires IsLowerCase(t) && t !in UnitAliases && LookupFolded(UnitAliasOrder, t).Some?
    ensures LookupFolded(UnitAliasOrder, t) == FoldedAlias(t)
  {
    var a := LookupFolded(UnitAliasOrder, t).value;
    FoldedMatchIsCapital(t, a);
    CapitalKeysLowered();
    if a == "L" {
      assert t == "l";
    } else if a == "W" {
      assert t == "w";
    } else {
      assert t == "kw";
    }
  }

  /** The capitalised keys are reached by their lower-case spellings. */
  lemma CapitalKeysFound(t: string)
    ensures t in {"l", "w", "kw"} ==> LookupFolded(UnitAliasOrder, t).Some?
  {
    CapitalKeysLowered();
    CapitalKeyPositions();
    if t == "l" {
      FoldedHitAt(2, t);
    } else if t == "w" {
      FoldedHitAt(24, t);
    } else if t == "kw" {
      FoldedHitAt(27, t);
    }
  }

  lemma CapitalKeyPositions()
    ensures |UnitAliasOrder| == 34
    ensures UnitAliasOrder[2] == "L" && UnitAliasOrder[24] == "W" && UnitAliasOrder[27] == "kW"
  {
  }

  lemma FoldedHitAt(i: nat, t: string)
    requires i < |UnitAliasOrder| && ToLower(UnitAliasOrder[i]) == t
    ensures LookupFolded(UnitAliasOrder, t).Some?
  {
  }

  lemma CapitalKeysLowered()
    ensures ToLower("L") == "l" && ToLower("W") == "w" && ToLower("kW") == "kw"
  {
    assert ToLower("kW")[1] == 'w';
  }

  /** A key matched only case-insensitively by a lower-case spelling is one written with
      capitals. */
  lemma FoldedMatchIsCapital(t: string, a: string)
    requires IsLowerCase(t) && t !in UnitAliases
    requires a in UnitAliasOrder && ToLower(a) == t
    ensures a in {"L", "W", "kW"}
  {
    AliasOrderIsKeys();
    if a !in {"L", "W", "kW"} {
      AliasKeysLowerCase(a);
      LowerOfLowerCase(a);
    }
  }

  /** Errors raised out of `normalize_unit` when a caller hands it something other than
      a string. */
  datatype UnitError = UnitNotText(unit: RawValue)

  /** `normalize_unit` applied to any value: a falsy one gives "", a string is normalised,
      and any other value makes `.lower()` raise. */
  function NormalizeUnitValue(v: RawValue): (r: Result<string, UnitError>)
    ensures !Truthy(v) ==> r == Success("")
    ensures v.Str? ==> r == Success(NormalizeUnit(v.s))
    ensures Truthy(v) && !v.Str? ==> r.Failure?
  {
    if !Truthy(v) then Success("")
    else if v.Str? then Success(NormalizeUnit(v.s))
    else Failure(UnitNotText(v))
  }

  /** A spelling already lower-cased and trimmed resolves through the dictionary, or
      through one of the three capitalised keys, or stays as it is. */
  lemma NormalizeClean(t: string)
    requires t != "" && IsLowerCase(t) && !IsSpace(t[0]) && !IsSpace(t[|t| - 1])
    ensures NormalizeUnit(t) ==
      if t in UnitAliases then UnitAliases[t]
      else if t == "l" then "liters" else if t == "w" then "W" else if t == "kw" then "kW"
      else t
  {
    LowerOfLowerCase(t);
    StripNoEdgeSpace(t);
    AliasOf("L", "liters");
    AliasOf("W", "W");
    AliasOf("kW", "kW");
  }

  /** Only the lower-cased spelling of a unit matters. */
  lemma NormalizeSameLower(u: string, v: string)
    requires u != "" && ToLower(u) == ToLower(v)
    ensures NormalizeUnit(u) == NormalizeUnit(v)
  {
  }

  /** Every canonical unit normalises to itself. */
  lemma CanonicalFixed(u: string)
    requires u in CanonicalUnits
    ensures NormalizeUnit(u) == u
  {
    if u == "W" {
      CapitalFixed("W", "w");
    } else if u == "kW" {
      CapitalFixed("kW", "kw");
    } else if u == "USD" {
      UsdFixed();
    } else {
      LowerCanonicalFixed(u);
    }
  }

  lemma CapitalFixed(u: string, t: string)
    requires (u, t) in {("W", "w"), ("kW", "kw")}
    ensures NormalizeUnit(u) == u
  {
    CapitalKeysLowered();
    CapitalsLoweredNotKeys();
    StripNoEdgeSpace(t);
    AliasOf(u, u);
    NormalizeThroughFold(u, t, u);
  }

  lemma CapitalsLoweredNotKeys()
    ensures "l" !in UnitAliases && "w" !in UnitAliases && "kw" !in UnitAliases
  {
    NotAliasKey("l");
    NotAliasKey("w");
    NotAliasKey("kw");
  }

  lemma NotAliasKey(t: string)
    requires t in {"l", "w", "kw"}
    ensures t !in UnitAliases
  {
  }

  /** A spelling the dictionary misses resolves through the key the case-insensitive pass finds. */
  lemma NormalizeThroughFold(u: string, t: string, a: string)
    requires u != "" && Strip(ToLower(u)) == t && t !in UnitAliases && FoldedAlias(t) == Some(a)
    ensures NormalizeUnit(u) == UnitAliases[a]
  {
  }

  lemma UsdFixed()
    ensures NormalizeUnit("USD") == "USD"
  {
    UsdLowered();
    NormalizeSameLower("usd", "USD");
    AliasOf("usd", "USD");
    NormalizeClean("usd");
  }

  lemma UsdLowered()
    ensures ToLower("USD") == "usd"
  {
    assert ToLower("USD")[0] == 'u';
  }

  /** The canonical units spelled in lower case are clean and map to themselves. */
  lemma LowerCanonicalFixed(u: string)
    requires u in CanonicalUnits && u !in {"W", "kW", "USD"}
    ensures NormalizeUnit(u) == u
  {
    assert IsLowerCase(u) && u != "" && !IsSpace(u[0]) && !IsSpace(u[|u| - 1]);
    assert u !in {"l", "w", "kw"};
    CanonicalSelfMapped(u);
    NormalizeClean(u);
  }

  /** A canonical unit that is also a key maps to itself. */
  lemma CanonicalSelfMapped(u: string)
    requires u in CanonicalUnits
    ensures u in UnitAliases ==> UnitAliases[u] == u
  {
    if u in {"kg", "oz", "cm", "W", "kW"} {
      SelfMappedKeys(u);
    } else {
      CanonicalNotKey(u);
    }
  }

  lemma SelfMappedKeys(u: string)
    requires u in {"kg", "oz", "cm", "W", "kW"}
    ensures u in UnitAliases && UnitAliases[u] == u
  {
    if u == "kg" {
      assert UnitAliases["kg"] == "kg";
    } else if u == "oz" {
      assert UnitAliases["oz"] == "oz";
    } else if u == "cm" {
      assert UnitAliases["cm"] == "cm";
    } else if u == "W" {
      assert UnitAliases["W"] == "W";
    } else {
      assert UnitAliases["kW"] == "kW";
    }
  }

  lemma CanonicalNotKey(u: string)
    requires u in {"gallons", "liters", "lbs", "inches", "feet", "meters", "USD"}
    ensures u !in UnitAliases
  {
    if u in {"gallons", "liters", "lbs"} {
      LongCanonicalNotKey(u);
    } else {
      ShortCanonicalNotKey(u);
    }
  }

  lemma LongCanonicalNotKey(u: string)
    requires u in {"gallons", "liters", "lbs"}
    ensures u !in UnitAliases
  {
    if u == "gallons" {
      assert "gallons" !in UnitAliases;
    } else if u == "liters" {
      assert "liters" !in UnitAliases;
    } else {
      assert "lbs" !in UnitAliases;
    }
  }

  lemma ShortCanonicalNotKey(u: string)
    requires u in {"inches", "feet", "meters", "USD"}
    ensures u !in UnitAliases
  {
    if u == "inches" {
      assert "inches" !in UnitAliases;
    } else if u == "feet" {
      assert "feet" !in UnitAliases;
    } else if u == "meters" {
      assert "meters" !in UnitAliases;
    } else {
      assert "USD" !in UnitAliases;
    }
  }

  /** `normalize_unit` is idempotent. */
  lemma NormalizeIdempotent(unit: string)
    ensures NormalizeUnit(NormalizeUnit(unit)) == NormalizeUnit(unit)
  {
    var r := NormalizeUnit(unit);
    if r in CanonicalUnits {
      CanonicalFixed(r);
    } else if unit != "" {
      var t := Strip(ToLower(unit));
      assert r == t;
      assert IsLowerCase(t) by {
        StripKeepsLowerCase(ToLower(unit));
      }
      LowerOfLowerCase(t);
      StripIdempotent(ToLower(unit));
    }
  }

  /** The "W" of "2000W" arrives as "w" and resolves to "W" through the case-insensitive pass. */
  lemma NormalizeFoldsCase()
    ensures NormalizeUnit("w") == "W"
  {
    NormalizeClean("w");
  }

  /** Case and surrounding blanks do not matter: " GAL " resolves to "gallons". */
  lemma NormalizeTrimsAndResolves()
    ensures NormalizeUnit(" GAL ") == "gallons"
  {
    GalLowered();
    GalStripped();
    AliasOf("gal", "gallons");
  }

  lemma GalLowered()
    ensures ToLower(" GAL ") == " gal "
  {
    assert ToLower(" GAL ")[1] == 'g';
  }

  lemma GalStripped()
    ensures Strip(" gal ") == "gal"
  {
  }

  /** One entry of the alias dictionary. */
  lemma AliasOf(a: string, c: string)
    requires (a, c) in {("gal", "gallons"), ("usd", "USD"), ("L", "liters"), ("W", "W"), ("kW", "kW")}
    ensures a in UnitAliases && UnitAliases[a] == c
  {
  }

  /** A unit missing from the table comes back lower-cased. */
  lemma NormalizeUnknownLowered()
    ensures NormalizeUnit("Cents") == "cents"
  {
    CentsLowered();
    CentsUnknown();
    NormalizeSameLower("Cents", "cents");
  }

  lemma CentsLowered()
    ensures ToLower("Cents") == "cents"
  {
    var c := "Cents";
    assert ToLower(c)[0] == 'c';
    assert ToLower(c)[1..] == c[1..];
  }

  lemma CentsUnknown()
    ensures NormalizeUnit("cents") == "cents"
  {
    CentsNotKey();
    CentsClean();
    NormalizeClean("cents");
  }

  lemma CentsNotKey()
    ensures "cents" !in UnitAliases
  {
  }

  lemma CentsClean()
    ensures IsLowerCase("cents") && !IsSpace("cents"[0]) && !IsSpace("cents"[4])
    ensures "cents" != "l" && "cents" != "w" && "cents" != "kw"
  {
  }

  /** `are_units_compatible`: the units are equal once normalised, or the table converts
      one way or the other. */
  predicate AreUnitsCompatible(unit1: string, unit2: string) {
    var norm1 := NormalizeUnit(unit1);
    var norm2 := NormalizeUnit(unit2);
    norm1 == norm2 || (norm1, norm2) in UnitConversions || (norm2, norm1) in UnitConversions
  }

  /** Compatibility does not depend on the order of the two units. */
  lemma CompatibleSymmetric(unit1: string, unit2: string)
    ensures AreUnitsCompatible(unit1, unit2) <==> AreUnitsCompatible(unit2, unit1)
  {
  }

  /** No factor of the table is zero or negative, so dividing by one never fails. */
  predicate PositiveFactors(table: map<(string, string), real>) {
    forall k :: k in table ==> table[k] > 0.0
  }

  /** The table step of `convert` on names already normalised, for a given table. */
  function ConvertWith(table: map<(string, string), real>, value: real, normFrom: string, normTo: string): (r: Option<real>)
    requires PositiveFactors(table)
    ensures r.Some? <==> normFrom == normTo || (normFrom, normTo) in table || (normTo, normFrom) in table
    ensures normFrom == normTo ==> r == Some(value)
  {
    if normFrom == normTo then Some(value)
    else if (normFrom, normTo) in table then Some(value * table[(normFrom, normTo)])
    else if (normTo, normFrom) in table then Some(value / table[(normTo, normFrom)])
    else None
  }

  /** `convert`: the value unchanged for equal normalised units, multiplied by a direct
      entry's factor, divided by a reverse entry's factor, or none. */
  function Convert(value: real, fromUnit: string, toUnit: string): (r: Option<real>)
    ensures r.Some? <==> AreUnitsCompatible(fromUnit, toUnit)
    ensures NormalizeUnit(fromUnit) == NormalizeUnit(toUnit) ==> r == Some(value)
  {
    UnitConversionsReciprocal();
    ReciprocalPositive(UnitConversions);
    ConvertWith(UnitConversions, value, NormalizeUnit(fromUnit), NormalizeUnit(toUnit))
  }

  /** The entry for `(a, b)` has a positive factor, and its reverse, where present, the
      reciprocal factor. */
  predicate ReciprocalAt(table: map<(string, string), real>, a: string, b: string)
    requires (a, b) in table
  {
    table[(a, b)] > 0.0 && ((b, a) in table ==> table[(a, b)] * table[(b, a)] == 1.0)
  }

  /** Every factor of the table is positive and every entry present both ways is reciprocal. */
  ghost predicate ReciprocalTable(table: map<(string, string), real>) {
    forall a, b :: (a, b) in table ==> ReciprocalAt(table, a, b)
  }

  lemma ReciprocalPositive(table: map<(string, string), real>)
    requires ReciprocalTable(table)
    ensures PositiveFactors(table)
  {
    forall k | k in table ensures table[k] > 0.0 {
      assert ReciprocalAt(table, k.0, k.1);
    }
  }

  /** Every entry of `table` relates two units of `units`. */
  ghost predicate Within(table: map<(string, string), real>, units: set<string>) {
    forall a, b :: (a, b) in table ==> a in units && b in units
  }

  /** Joining two reciprocal tables over disjoint units gives a reciprocal table. */
  lemma JoinReciprocal(t1: map<(string, string), real>, u1: set<string>,
                       t2: map<(string, string), real>, u2: set<string>)
    requires ReciprocalTable(t1) && Within(t1, u1)
    requires ReciprocalTable(t2) && Within(t2, u2)
    requires u1 !! u2
    ensures ReciprocalTable(t1 + t2) && Within(t1 + t2, u1 + u2)
  {
    var t := t1 + t2;
    forall a, b | (a, b) in t ensures ReciprocalAt(t, a, b) {
      if (a, b) in t2 {
        assert ReciprocalAt(t2, a, b);
      } else {
        assert ReciprocalAt(t1, a, b);
        assert a in u1 && a !in u2;
        assert (b, a) !in t2;
      }
    }
  }

  lemma VolumeReciprocal()
    ensures ReciprocalTable(VolumeConversions) && Within(VolumeConversions, VolumeUnits)
  {
  }

  lemma WeightReciprocal()
    ensures ReciprocalTable(WeightConversions) && Within(WeightConversions, WeightUnits)
  {
    forall a, b | (a, b) in WeightConversions
      ensures ReciprocalAt(WeightConversions, a, b) && a in WeightUnits && b in WeightUnits
    {
      if a in {"lbs", "pounds", "lb"} {
        WeightFromPounds(a, b);
      } else {
        WeightFromOthers(a, b);
      }
    }
  }

  lemma WeightFromPounds(a: string, b: string)
    requires a in {"lbs", "pounds", "lb"} && (a, b) in WeightConversions
    ensures ReciprocalAt(WeightConversions, a, b) && b in WeightUnits
  {
    if b == "kg" {
      PoundsToKilograms(a);
    } else {
      PoundsToOunces(a, b);
    }
  }

  lemma PoundsToKilograms(a: string)
    requires a in {"lbs", "pounds", "lb"}
    ensures (a, "kg") in WeightConversions && ReciprocalAt(WeightConversions, a, "kg")
  {
  }

  lemma PoundsToOunces(a: string, b: string)
    requires a in {"lbs", "pounds", "lb"} && (a, b) in WeightConversions && b != "kg"
    ensures b == "oz" && ReciprocalAt(WeightConversions, a, b)
  {
  }

  lemma WeightFromOthers(a: string, b: string)
    requires a !in {"lbs", "pounds", "lb"} && (a, b) in WeightConversions
    ensures ReciprocalAt(WeightConversions, a, b) && a in WeightUnits && b in WeightUnits
  {
  }

  lemma InchReciprocal()
    ensures ReciprocalTable(InchConversions) && Within(InchConversions, InchUnits)
  {
  }

  lemma FootReciprocal()
    ensures ReciprocalTable(FootConversions) && Within(FootConversions, FootUnits)
  {
  }

  lemma PowerReciprocal()
    ensures ReciprocalTable(PowerConversions) && Within(PowerConversions, PowerUnits)
  {
  }

  lemma CurrencyReciprocal()
    ensures ReciprocalTable(CurrencyConversions) && Within(CurrencyConversions, CurrencyUnits)
  {
  }

  // No two sections of the table share a unit.

  lemma WeightApart()
    ensures VolumeUnits !! WeightUnits
  {
  }

  lemma InchApart()
    ensures VolumeUnits + WeightUnits !! InchUnits
  {
    VolumeApartFromOthers();
    WeightApartFromOthers();
  }

  lemma FootApart()
    ensures VolumeUnits + WeightUnits + InchUnits !! FootUnits
  {
    VolumeApartFromOthers();
    WeightApartFromOthers();
    LengthsAndPowerApart();
  }

  lemma PowerApart()
    ensures VolumeUnits + WeightUnits + InchUnits + FootUnits !! PowerUnits
  {
    VolumeApartFromOthers();
    WeightApartFromOthers();
    LengthsAndPowerApart();
  }

  lemma VolumeApartFromOthers()
    ensures VolumeUnits !! InchUnits && VolumeUnits !! FootUnits && VolumeUnits !! PowerUnits
  {
  }

  lemma WeightApartFromOthers()
    ensures WeightUnits !! InchUnits && WeightUnits !! FootUnits && WeightUnits !! PowerUnits
  {
  }

  lemma LengthsAndPowerApart()
    ensures InchUnits !! FootUnits && InchUnits !! PowerUnits && FootUnits !! PowerUnits
  {
  }

  lemma CurrencyApart()
    ensures VolumeUnits + WeightUnits + InchUnits + FootUnits + PowerUnits !! CurrencyUnits
  {
    MeasuresNotCurrency();
    WeightNotCurrency();
  }

  lemma MeasuresNotCurrency()
    ensures VolumeUnits !! CurrencyUnits && InchUnits !! CurrencyUnits
    ensures FootUnits !! CurrencyUnits && PowerUnits !! CurrencyUnits
  {
  }

  lemma WeightNotCurrency()
    ensures WeightUnits !! CurrencyUnits
  {
  }

  /** Every factor of the conversion table is positive, and an entry and its reverse,
      where both exist, are reciprocal. */
  lemma UnitConversionsReciprocal()
    ensures ReciprocalTable(UnitConversions)
  {
    VolumeReciprocal();
    WeightReciprocal();
    InchReciprocal();
    FootReciprocal();
    PowerReciprocal();
    CurrencyReciprocal();
    WeightApart();
    InchApart();
    FootApart();
    PowerApart();
    CurrencyApart();
    var t1 := VolumeConversions + WeightConversions;
    var u1 := VolumeUnits + WeightUnits;
    JoinReciprocal(VolumeConversions, VolumeUnits, WeightConversions, WeightUnits);
    var t2 := t1 + InchConversions;
    var u2 := u1 + InchUnits;
    JoinReciprocal(t1, u1, InchConversions, InchUnits);
    var t3 := t2 + FootConversions;
    var u3 := u2 + FootUnits;
    JoinReciprocal(t2, u2, FootConversions, FootUnits);
    var t4 := t3 + PowerConversions;
    var u4 := u3 + PowerUnits;
    JoinReciprocal(t3, u3, PowerConversions, PowerUnits);
    JoinReciprocal(t4, u4, CurrencyConversions, CurrencyUnits);
  }

  /** A normalised unit is canonical or is not an alias at all. */
  lemma NormalizedNotAlias(unit: string)
    ensures NormalizeUnit(unit) in CanonicalUnits || NormalizeUnit(unit) !in UnitAliases
  {
  }

  /** The units the table is keyed by that are aliases rather than canonical units. */
  const AliasKeyedUnits: set<string> :=
    {"gal", "L", "pounds", "lb", "kilograms", "ounces", "in", "centimeters", "ft", "m",
     "kilowatts", "watts", "$"}

  lemma AliasKeyedAreAliases(k: string)
    requires k in AliasKeyedUnits
    ensures k in UnitAliases && k !in CanonicalUnits
  {
    if k in {"gal", "L", "pounds", "lb", "kilograms", "ounces", "in"} {
      AliasKeyedHead(k);
    } else {
      AliasKeyedTail(k);
    }
  }

  lemma AliasKeyedHead(k: string)
    requires k in {"gal", "L", "pounds", "lb", "kilograms", "ounces", "in"}
    ensures k in UnitAliases && k !in CanonicalUnits
  {
  }

  lemma AliasKeyedTail(k: string)
    requires k in {"centimeters", "ft", "m", "kilowatts", "watts", "$"}
    ensures k in UnitAliases && k !in CanonicalUnits
  {
  }

  /** Lookups go through normalised names, so the table entries keyed by an alias
      ("gal", "L", "pounds", …) are never the entry `convert` uses. */
  lemma RawAliasKeysNeverHit(unit: string)
    ensures NormalizeUnit(unit) !in AliasKeyedUnits
  {
    var r := NormalizeUnit(unit);
    NormalizedNotAlias(unit);
    if r in AliasKeyedUnits {
      AliasKeyedAreAliases(r);
    }
  }

  // Scanners for the two regular expressions of `extract_unit_from_string`.

  /** `[\d.,]` */
  predicate IsNumberChar(c: char) { IsDigit(c) || c == '.' || c == ',' }

  function NumberRunEnd(s: string, i: nat): (j: nat)
    requires i <= |s|
    ensures i <= j <= |s| && (j == |s| || !IsNumberChar(s[j]))
    ensures forall k :: i <= k < j ==> IsNumberChar(s[k])
    decreases |s| - i
  {
    if i < |s| && IsNumberChar(s[i]) then NumberRunEnd(s, i + 1) else i
  }

  function SpaceRunEnd(s: string, i: nat): (j: nat)
    requires i <= |s|
    ensures i <= j <= |s| && (j == |s| || !IsSpace(s[j]))
    ensures forall k :: i <= k < j ==> IsSpace(s[k])
    decreases |s| - i
  {
    if i < |s| && IsSpace(s[i]) then SpaceRunEnd(s, i + 1) else i
  }

  function LetterRunEnd(s: string, i: nat): (j: nat)
    requires i <= |s|
    ensures i <= j <= |s| && (j == |s| || !IsLetter(s[j]))
    ensures forall k :: i <= k < j ==> IsLetter(s[k])
    decreases |s| - i
  {
    if i < |s| && IsLetter(s[i]) then LetterRunEnd(s, i + 1) else i
  }

  /** A match of `[\d.,]+\s*[a-zA-Z]` can start at `i`. */
  predicate NumberThenLetterAt(s: string, i: nat)
    requires i <= |s|
  {
    i < |s| && IsNumberChar(s[i]) &&
    var k := SpaceRunEnd(s, NumberRunEnd(s, i));
    k < |s| && IsLetter(s[k])
  }

  /** Group 1 of `[\d.,]+\s*([a-zA-Z]+(?:\s+[a-zA-Z]+)?)` for a match starting at `i`: a
      word, and a second word when only blanks separate them. */
  function UnitWordsAt(s: string, i: nat): (g: string)
    requires i <= |s| && NumberThenLetterAt(s, i)
    ensures |g| >= 1 && IsLetter(g[0]) && IsLetter(g[|g| - 1])
  {
    var k := SpaceRunEnd(s, NumberRunEnd(s, i));
    var l := LetterRunEnd(s, k);
    var m := SpaceRunEnd(s, l);
    if m > l && m < |s| && IsLetter(s[m]) then s[k..LetterRunEnd(s, m)] else s[k..l]
  }

  /** `re.search` of the first pattern from position `i` on: the group of the leftmost match. */
  function SearchNumberUnit(s: string, i: nat): (r: Option<string>)
    requires i <= |s|
    ensures r.Some? ==> |r.value| >= 1 && IsLetter(r.value[0]) && IsLetter(r.value[|r.value| - 1])
    decreases |s| - i
  {
    if i == |s| then None
    else if NumberThenLetterAt(s, i) then Some(UnitWordsAt(s, i))
    else SearchNumberUnit(s, i + 1)
  }

  /** `re.search(r'^([a-zA-Z]+)\s+[\d.,]+', s)`: the leading word of "USD 199.99". */
  function LeadingWord(s: string): (r: Option<string>)
    ensures r.Some? ==> StartsWith(s, r.value) && |r.value| >= 1
  {
    var l := LetterRunEnd(s, 0);
    var m := SpaceRunEnd(s, l);
    if l >= 1 && m > l && m < |s| && IsNumberChar(s[m]) then Some(s[..l]) else None
  }

  /** Words after a number that are not units. */
  const NonUnits: set<string> :=
    {"per", "each", "total", "max", "min", "up", "to", "at", "for", "with", "and", "or"}

  /** Currency codes accepted in front of a number. */
  const CurrencyPrefixes: set<string> := {"usd", "eur", "gbp", "cad"}

  /** `re.sub(r'^[$€£¥]', '', s)` */
  function DropCurrencySymbol(s: string): (r: string)
    ensures |r| <= |s|
  {
    if |s| > 0 && s[0] in {'$', '€', '£', '¥'} then s[1..] else s
  }

  /** The text `extract_unit_from_string` searches: stripped, one leading currency symbol
      dropped, stripped again. */
  function CleanText(text: string): (t: string)
    ensures |t| <= |text|
  {
    Strip(DropCurrencySymbol(Strip(text)))
  }

  /** Only one leading currency symbol is removed, and only at the very start. */
  lemma CleanDropsOneSymbol(s: string)
    requires |s| >= 1 && s[0] in {'$', '€', '£', '¥'} && Strip(s) == s
    ensures CleanText(s) == Strip(s[1..])
  {
  }

  /** `extract_unit_from_string`: the unit after the first number if the first pattern
      accepts one, else a currency code in front of a number, else none. */
  function ExtractUnitFromString(text: string): (r: Option<string>)
    ensures text == "" ==> r.None?
    ensures r.Some? ==> IsLowerCase(r.value) && 1 <= |r.value| <= 20 && r.value !in NonUnits
  {
    if text == "" then None
    else
      var t := CleanText(text);
      match NumberUnit(t)
      case Some(u) => Some(u)
      case None => CurrencyPrefix(t)
  }

  /** The first pattern: the lower-cased word(s) after the first number, unless they are
      a stop word or longer than 20 characters. */
  function NumberUnit(t: string): (r: Option<string>)
    ensures r.Some? ==> IsLowerCase(r.value) && 1 <= |r.value| <= 20 && r.value !in NonUnits
    ensures r.Some? <==> (SearchNumberUnit(t, 0).Some? &&
      ToLower(SearchNumberUnit(t, 0).value) !in NonUnits && |SearchNumberUnit(t, 0).value| <= 20)
    ensures r.Some? ==> r.value == ToLower(SearchNumberUnit(t, 0).value)
  {
    match SearchNumberUnit(t, 0)
    case None => None
    case Some(g) =>
      var candidate := ToLower(Strip(g));
      LoweredGroupShape(g);
      if candidate !in NonUnits && |candidate| <= 20 then Some(candidate) else None
  }

  /** The second pattern: a leading word followed by blanks and a number, accepted only
      when it is one of the currency codes. */
  function CurrencyPrefix(t: string): (r: Option<string>)
    ensures r.Some? ==> r.value in CurrencyPrefixes
    ensures r.Some? ==> IsLowerCase(r.value) && |r.value| == 3 && r.value !in NonUnits
  {
    match LeadingWord(t)
    case None => None
    case Some(word) =>
      var w := ToLower(Strip(word));
      if w in CurrencyPrefixes then
        CurrencyPrefixShape(w);
        Some(w)
      else None
  }

  /** A matched group starts and ends with a letter, so `strip()` keeps it whole. */
  lemma LoweredGroupShape(g: string)
    requires |g| >= 1 && IsLetter(g[0]) && IsLetter(g[|g| - 1])
    ensures Strip(g) == g
    ensures |ToLower(Strip(g))| == |g| && IsLowerCase(ToLower(Strip(g)))
  {
    StripNoEdgeSpace(g);
    LowerIsLowerCase(g);
  }

  /** The currency codes are short, lower-case and not stop words. */
  lemma CurrencyPrefixShape(w: string)
    requires w in CurrencyPrefixes
    ensures IsLowerCase(w) && |w| == 3 && w !in NonUnits
  {
  }

  /** The search fails exactly when no position from `i` on starts a match. */
  lemma {:induction false} SearchNumberUnitNone(s: string, i: nat)
    requires i <= |s|
    ensures SearchNumberUnit(s, i).None? <==> forall j :: i <= j <= |s| ==> !NumberThenLetterAt(s, j)
    decreases |s| - i
  {
    if i < |s| && !NumberThenLetterAt(s, i) {
      SearchNumberUnitNone(s, i + 1);
    }
  }

  /** A match starts at `j` and none starts between `i` and `j`. */
  predicate LeftmostMatchAt(s: string, i: nat, j: nat) {
    i <= j < |s| && NumberThenLetterAt(s, j) && forall k :: i <= k < j ==> !NumberThenLetterAt(s, k)
  }

  /** A successful search returns the group of the leftmost match: a match starts at
      some `j`, none starts between `i` and `j`, and the group is the one at `j`. */
  lemma {:induction false} SearchNumberUnitLeftmost(s: string, i: nat)
    requires i <= |s| && SearchNumberUnit(s, i).Some?
    ensures exists j :: LeftmostMatchAt(s, i, j) && SearchNumberUnit(s, i).value == UnitWordsAt(s, j)
    decreases |s| - i
  {
    if NumberThenLetterAt(s, i) {
      assert SearchNumberUnit(s, i) == Some(UnitWordsAt(s, i));
      assert LeftmostMatchAt(s, i, i);
    } else {
      assert SearchNumberUnit(s, i) == SearchNumberUnit(s, i + 1);
      SearchNumberUnitLeftmost(s, i + 1);
      var j :| LeftmostMatchAt(s, i + 1, j) && SearchNumberUnit(s, i + 1).value == UnitWordsAt(s, j);
      LeftmostMatchBack(s, i, j);
    }
  }

  /** A position where no match starts extends the stretch before the leftmost match. */
  lemma LeftmostMatchBack(s: string, i: nat, j: nat)
    requires i < |s| && !NumberThenLetterAt(s, i) && LeftmostMatchAt(s, i + 1, j)
    ensures LeftmostMatchAt(s, i, j)
  {
  }

  /** The group of a match is a piece of the text that comes after the number starting
      the match. */
  lemma UnitWordsFollowNumber(s: string, j: nat)
    requires j <= |s| && NumberThenLetterAt(s, j)
    ensures exists k :: j < k <= |s| && OccursAt(s, UnitWordsAt(s, j), k)
  {
    var k := SpaceRunEnd(s, NumberRunEnd(s, j));
    assert OccursAt(s, UnitWordsAt(s, j), k);
  }

  /** Text with no blank at either end and no leading currency symbol is searched as is. */
  lemma CleanKeeps(s: string)
    requires s != [] && !IsSpace(s[0]) && !IsSpace(s[|s| - 1])
    requires s[0] !in {'$', '€', '£', '¥'}
    ensures CleanText(s) == s
  {
    StripNoEdgeSpace(s);
  }

  /** When the first pattern finds an acceptable group, that group lower-cased is the
      answer. */
  lemma ExtractAccepts(text: string, g: string)
    requires text != "" && CleanText(text) == text && SearchNumberUnit(text, 0) == Some(g)
    requires ToLower(g) !in NonUnits && |g| <= 20
    ensures ExtractUnitFromString(text) == Some(ToLower(g))
  {
    assert NumberUnit(text) == Some(ToLower(g));
  }

  /** When the first pattern finds nothing acceptable, only the second one decides. */
  lemma ExtractFallsBack(text: string)
    requires text != "" && CleanText(text) == text && NumberUnit(text) == None
    ensures ExtractUnitFromString(text) == CurrencyPrefix(text)
  {
  }

  /** The first pattern on "2000W" captures "W": no blank is needed between number
      and unit. */
  lemma ScanWatts()
    ensures SearchNumberUnit("2000W", 0) == Some("W")
  {
    var s := "2000W";
    assert NumberRunEnd(s, 0) == 4;
    assert SpaceRunEnd(s, 4) == 4;
    assert LetterRunEnd(s, 4) == 5;
    assert SpaceRunEnd(s, 5) == 5;
    assert NumberThenLetterAt(s, 0);
    assert UnitWordsAt(s, 0) == s[4..5] == "W";
  }

  /** The first pattern on "10 lbs max" captures "lbs max": a second word is taken along
      with the first. */
  lemma ScanTwoWords()
    ensures SearchNumberUnit("10 lbs max", 0) == Some("lbs max")
  {
    var s := "10 lbs max";
    TwoWordsRuns(s);
    assert NumberThenLetterAt(s, 0);
    assert UnitWordsAt(s, 0) == s[3..10];
    assert s[3..10] == "lbs max";
  }

  /** The runs the first pattern walks through on "10 lbs max". */
  lemma TwoWordsRuns(s: string)
    requires |s| == 10 && s[0] == '1' && s[1] == '0' && s[2] == ' ' && s[3] == 'l'
    requires s[4] == 'b' && s[5] == 's' && s[6] == ' ' && s[7] == 'm' && s[8] == 'a'
    requires s[9] == 'x'
    ensures NumberRunEnd(s, 0) == 2 && SpaceRunEnd(s, 2) == 3 && LetterRunEnd(s, 3) == 6
    ensures SpaceRunEnd(s, 6) == 7 && LetterRunEnd(s, 7) == 10
  {
    assert NumberRunEnd(s, 2) == 2 && NumberRunEnd(s, 1) == 2;
    assert SpaceRunEnd(s, 3) == 3;
    assert LetterRunEnd(s, 6) == 6 && LetterRunEnd(s, 5) == 6 && LetterRunEnd(s, 4) == 6;
    assert SpaceRunEnd(s, 7) == 7;
    assert LetterRunEnd(s, 9) == 10 && LetterRunEnd(s, 8) == 10;
  }

  /** The first pattern on "5 per" captures the stop word "per", which is then refused. */
  lemma ScanStopWord()
    ensures SearchNumberUnit("5 per", 0) == Some("per")
    ensures ToLower("per") in NonUnits
  {
    var s := "5 per";
    assert NumberRunEnd(s, 0) == 1;
    assert SpaceRunEnd(s, 1) == 2;
    assert LetterRunEnd(s, 2) == 5;
    assert SpaceRunEnd(s, 5) == 5;
    assert NumberThenLetterAt(s, 0);
    assert UnitWordsAt(s, 0) == s[2..5] == "per";
    LowerOfLowerCase("per");
  }

  /** On "USD 199.99" no letter follows the number, so the first pattern finds nothing
      and the leading word "USD" is what the second pattern sees. */
  lemma ScanCurrencyCode()
    ensures SearchNumberUnit("USD 199.99", 0) == None
    ensures LeadingWord("USD 199.99") == Some("USD")
  {
    NoLetterAfterAmount();
    var s := "USD 199.99";
    assert LetterRunEnd(s, 0) == 3;
    assert SpaceRunEnd(s, 3) == 4;
    assert IsNumberChar(s[4]);
    assert s[..3] == "USD";
  }

  lemma NoLetterAfterAmount()
    ensures SearchNumberUnit("USD 199.99", 0) == None
  {
    var s := "USD 199.99";
    assert NumberRunEnd(s, 4) == 10;
    forall j | 0 <= j <= |s| ensures !NumberThenLetterAt(s, j) {
      if 4 <= j < |s| {
        assert NumberRunEnd(s, j) == 10;
      }
    }
  }
}
