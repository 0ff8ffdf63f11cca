/**
 * The immutable record of a player's ten ratings: range validation that reports
 * the first failing rating in declaration order, the four derived averages, and
 * conversion to and from a flat name-to-value map.
 */
module Stats {
  import opened Wrappers
  import opened Text

  /** The ten ratings, in declaration order. A value of this type is the raw
      argument list; `Validate` decides whether it makes a stats object. */
  datatype PlayerStats = PlayerStats(
    passing: int, crossing: int, dribbling: int, firstTouch: int,
    marking: int, tackling: int,
    pace: int, acceleration: int, stamina: int,
    vision: int)

  const MinRating: int := 1
  const MaxRating: int := 20

  /** The field names, in declaration order; they are also the keys of the map form. */
  const FieldNames: seq<string> := [
    "passing", "crossing", "dribbling", "first_touch",
    "marking", "tackling",
    "pace", "acceleration", "stamina",
    "vision"
  ]

  const FieldCount: nat := 10

  /** The set of keys the map form carries. */
  const FieldSet: set<string> := set i | 0 <= i < |FieldNames| :: FieldNames[i]

  /** The ratings in declaration order, aligned with `FieldNames`. */
  function Fields(s: PlayerStats): (r: seq<int>)
    ensures |r| == FieldCount == |FieldNames|
  {
    [s.passing, s.crossing, s.dribbling, s.firstTouch,
     s.marking, s.tackling,
     s.pace, s.acceleration, s.stamina,
     s.vision]
  }

  predicate InRange(v: int) {
    MinRating <= v <= MaxRating
  }

  /** Every rating lies in the inclusive range [1, 20]. */
  predicate Valid(s: PlayerStats)
    ensures Valid(s) <==>
      && InRange(s.passing) && InRange(s.crossing) && InRange(s.dribbling) && InRange(s.firstTouch)
      && InRange(s.marking) && InRange(s.tackling)
      && InRange(s.pace) && InRange(s.acceleration) && InRange(s.stamina)
      && InRange(s.vision)
  {
    FieldsInRange(s);
    forall i :: 0 <= i < |Fields(s)| ==> InRange(Fields(s)[i])
  }

  /** All ratings of the sequence are in range iff each named rating is. */
  lemma FieldsInRange(s: PlayerStats)
    ensures (forall i :: 0 <= i < |Fields(s)| ==> InRange(Fields(s)[i])) <==>
      && InRange(s.passing) && InRange(s.crossing) && InRange(s.dribbling) && InRange(s.firstTouch)
      && InRange(s.marking) && InRange(s.tackling)
      && InRange(s.pace) && InRange(s.acceleration) && InRange(s.stamina)
      && InRange(s.vision)
  {
    var f := Fields(s);
    assert f[0] == s.passing && f[1] == s.crossing && f[2] == s.dribbling && f[3] == s.firstTouch;
    assert f[4] == s.marking && f[5] == s.tackling;
    assert f[6] == s.pace && f[7] == s.acceleration && f[8] == s.stamina && f[9] == s.vision;
  }

  /** A constructed stats object: construction only succeeds on valid ratings, and the
      object is frozen afterwards. */
  type ValidStats = s: PlayerStats | Valid(s) witness PlayerStats(1, 1, 1, 1, 1, 1, 1, 1, 1, 1)

  datatype StatsError =
    | OutOfRange(field: string, value: int)   // a rating outside [1, 20]
    | UnexpectedKeys(unexpected: set<string>)      // map keys that name no rating
    | MissingKeys(missing: seq<string>)      // ratings absent from the map

  /** The message of a range error. */
  function Message(e: StatsError): (r: string)
    requires e.OutOfRange?
    ensures |r| > |e.field| + 31 && r[..|e.field|] == e.field
    ensures r[|e.field|..|e.field| + 31] == " must be between 1 and 20, got "
    ensures e.value >= 0 ==> IsDigits(r[|e.field| + 31..]) && DecimalValue(r[|e.field| + 31..]) == e.value
    ensures e.value < 0 ==>
      r[|e.field| + 31] == '-' && IsDigits(r[|e.field| + 32..]) && DecimalValue(r[|e.field| + 32..]) == -e.value
    ensures r[|e.field| + 31..] == IntToString(e.value)
  {
    e.field + " must be between 1 and 20, got " + IntToString(e.value)
  }

  /** Rating `i` is the first one, in declaration order, that is out of range. */
  predicate IsFirstInvalid(s: PlayerStats, i: int) {
    0 <= i < FieldCount && !InRange(Fields(s)[i]) && forall j :: 0 <= j < i ==> InRange(Fields(s)[j])
  }

  /** The scan of the construction check: the first index from `from` on whose value
      is out of range, if any. */
  function FirstInvalid(values: seq<int>, from: nat): (r: Option<nat>)
    requires from <= |values|
    ensures r.Some? ==>
      && from <= r.value < |values|
      && !InRange(values[r.value])
      && forall j :: from <= j < r.value ==> InRange(values[j])
    ensures r.None? ==> forall j :: from <= j < |values| ==> InRange(values[j])
    decreases |values| - from
  {
    if from == |values| then None
    else if !InRange(values[from]) then Some(from)
    else FirstInvalid(values, from + 1)
  }

  /** Construction: succeeds with the ratings unchanged iff every rating is in
      range; otherwise names the first failing rating and its value. */
  function Validate(s: PlayerStats): (r: Result<ValidStats, StatsError>)
    ensures r.Success? <==> Valid(s)
    ensures r.Success? ==> r.value == s
    ensures r.Failure? ==>
      exists i :: IsFirstInvalid(s, i) && r.error == OutOfRange(FieldNames[i], Fields(s)[i])
  {
    match FirstInvalid(Fields(s), 0)
    case None => Success(s)
    case Some(i) => Failure(OutOfRange(FieldNames[i], Fields(s)[i]))
  }

  /** The first failing rating is the one reported, whatever the later ratings are. */
  lemma ValidateReportsFirst(s: PlayerStats, i: int)
    requires IsFirstInvalid(s, i)
    ensures Validate(s) == Failure(OutOfRange(FieldNames[i], Fields(s)[i]))
  {
  }

  /** The ratings of `s` with rating `i` replaced by `v`. */
  function WithField(s: PlayerStats, i: nat, v: int): (t: PlayerStats)
    requires i < FieldCount
    ensures Fields(t) == Fields(s)[i := v]
  {
    match i
    case 0 => s.(passing := v)
    case 1 => s.(crossing := v)
    case 2 => s.(dribbling := v)
    case 3 => s.(firstTouch := v)
    case 4 => s.(marking := v)
    case 5 => s.(tackling := v)
    case 6 => s.(pace := v)
    case 7 => s.(acceleration := v)
    case 8 => s.(stamina := v)
    case _ => s.(vision := v)
  }

  /** Both bounds are inclusive for every rating: changing one rating of a valid
      record to `v` is accepted iff 1 <= v <= 20 (so 1 and 20 pass, 0 and 21 fail),
      and a rejection names that rating and `v`. */
  lemma SingleRatingBounds(s: PlayerStats, i: nat, v: int)
    requires Valid(s) && i < FieldCount
    ensures Validate(WithField(s, i, v)).Success? <==> MinRating <= v <= MaxRating
    ensures !InRange(v) ==> Validate(WithField(s, i, v)) == Failure(OutOfRange(FieldNames[i], v))
  {
    var t := WithField(s, i, v);
    if !InRange(v) {
      assert IsFirstInvalid(t, i);
      ValidateReportsFirst(t, i);
    } else {
      assert Valid(t);
    }
  }

  function Sum(xs: seq<int>): int {
    if xs == [] then 0 else xs[0] + Sum(xs[1..])
  }

  lemma {:induction false} SumAppend(xs: seq<int>, ys: seq<int>)
    ensures Sum(xs + ys) == Sum(xs) + Sum(ys)
  {
    if xs == [] {
      assert xs + ys == ys;
    } else {
      assert (xs + ys)[1..] == xs[1..] + ys;
      SumAppend(xs[1..], ys);
    }
  }

  lemma SumDisplay2(a: int, b: int)
    ensures Sum([a, b]) == a + b
  {
    assert [b][1..] == [];
    assert Sum([b]) == b;
    assert [a, b][1..] == [b];
  }

  lemma SumDisplay3(a: int, b: int, c: int)
    ensures Sum([a, b, c]) == a + b + c
  {
    assert [a, b, c][1..] == [b, c];
    SumDisplay2(b, c);
  }

  lemma SumDisplay4(a: int, b: int, c: int, d: int)
    ensures Sum([a, b, c, d]) == a + b + c + d
  {
    assert [a, b, c, d][1..] == [b, c, d];
    SumDisplay3(b, c, d);
  }

  /** The arithmetic mean, as `sum(xs) / len(xs)` computes it, without rounding. */
  function Mean(xs: seq<int>): (r: real)
    requires |xs| > 0
    ensures r * (|xs| as real) == Sum(xs) as real
  {
    Sum(xs) as real / |xs| as real
  }

  lemma {:induction false} SumBounds(xs: seq<int>, lo: int, hi: int)
    requires forall i :: 0 <= i < |xs| ==> lo <= xs[i] <= hi
    ensures |xs| * lo <= Sum(xs) <= |xs| * hi
  {
    if xs != [] {
      SumBounds(xs[1..], lo, hi);
    }
  }

  /** The mean of values in [lo, hi] lies in [lo, hi]. */
  lemma MeanBounds(xs: seq<int>, lo: int, hi: int)
    requires |xs| > 0
    requires forall i :: 0 <= i < |xs| ==> lo <= xs[i] <= hi
    ensures lo as real <= Mean(xs) <= hi as real
  {
    SumBounds(xs, lo, hi);
    QuotientOfBounds(Sum(xs), |xs|, Mean(xs), lo, hi);
  }

  /** A quotient of a sum bounded by `k * lo` and `k * hi` lies in [lo, hi]. */
  lemma QuotientOfBounds(sum: int, k: int, m: real, lo: int, hi: int)
    requires k > 0 && k * lo <= sum <= k * hi && m * (k as real) == sum as real
    ensures lo as real <= m <= hi as real
  {
    CastProduct(k, lo);
    CastProduct(k, hi);
    QuotientBounds(m, k as real, lo as real, hi as real);
  }

  /** Converting a product of integers to a real is the product of the converted factors. */
  lemma CastProduct(k: int, x: int)
    ensures (k * x) as real == (x as real) * (k as real)
  {
  }

  /** A positive factor preserves order between products. */
  lemma QuotientBounds(m: real, n: real, lo: real, hi: real)
    requires n > 0.0 && lo * n <= m * n <= hi * n
    ensures lo <= m <= hi
  {
  }

  /** Mean of passing, crossing, dribbling and first touch. */
  function TechnicalAverage(s: PlayerStats): (r: real)
    ensures r * 4.0 == (s.passing + s.crossing + s.dribbling + s.firstTouch) as real
    ensures Valid(s) ==> 1.0 <= r <= 20.0
  {
    var xs := [s.passing, s.crossing, s.dribbling, s.firstTouch];
    assert xs == Fields(s)[0..4];
    SumDisplay4(s.passing, s.crossing, s.dribbling, s.firstTouch);
    var r := Mean(xs);
    assert Valid(s) ==> 1.0 <= r <= 20.0 by {
      if Valid(s) { MeanBounds(xs, MinRating, MaxRating); }
    }
    r
  }

  /** Mean of marking and tackling. */
  function DefensiveAverage(s: PlayerStats): (r: real)
    ensures r * 2.0 == (s.marking + s.tackling) as real
    ensures Valid(s) ==> 1.0 <= r <= 20.0
  {
    var xs := [s.marking, s.tackling];
    assert xs == Fields(s)[4..6];
    SumDisplay2(s.marking, s.tackling);
    var r := Mean(xs);
    assert Valid(s) ==> 1.0 <= r <= 20.0 by {
      if Valid(s) { MeanBounds(xs, MinRating, MaxRating); }
    }
    r
  }

  /** Mean of pace, acceleration and stamina. */
  function PhysicalAverage(s: PlayerStats): (r: real)
    ensures r * 3.0 == (s.pace + s.acceleration + s.stamina) as real
    ensures Valid(s) ==> 1.0 <= r <= 20.0
  {
    var xs := [s.pace, s.acceleration, s.stamina];
    assert xs == Fields(s)[6..9];
    SumDisplay3(s.pace, s.acceleration, s.stamina);
    var r := Mean(xs);
    assert Valid(s) ==> 1.0 <= r <= 20.0 by {
      if Valid(s) { MeanBounds(xs, MinRating, MaxRating); }
    }
    r
  }

  /** Mean of all ten ratings. */
  function OverallAverage(s: PlayerStats): (r: real)
    ensures r * 10.0 == (s.passing + s.crossing + s.dribbling + s.firstTouch
                        + s.marking + s.tackling
                        + s.pace + s.acceleration + s.stamina
                        + s.vision) as real
    ensures Valid(s) ==> 1.0 <= r <= 20.0
  {
    var xs := Fields(s);
    assert xs == [s.passing, s.crossing, s.dribbling, s.firstTouch] + [s.marking, s.tackling]
               + [s.pace, s.acceleration, s.stamina] + [s.vision];
    SumAppend([s.passing, s.crossing, s.dribbling, s.firstTouch] + [s.marking, s.tackling]
              + [s.pace, s.acceleration, s.stamina], [s.vision]);
    SumAppend([s.passing, s.crossing, s.dribbling, s.firstTouch] + [s.marking, s.tackling],
              [s.pace, s.acceleration, s.stamina]);
    SumAppend([s.passing, s.crossing, s.dribbling, s.firstTouch], [s.marking, s.tackling]);
    SumDisplay4(s.passing, s.crossing, s.dribbling, s.firstTouch);
    SumDisplay3(s.pace, s.acceleration, s.stamina);
    SumDisplay2(s.marking, s.tackling);
    assert [s.vision][1..] == [];
    var r := Mean(xs);
    assert Valid(s) ==> 1.0 <= r <= 20.0 by {
      if Valid(s) { MeanBounds(xs, MinRating, MaxRating); }
    }
    r
  }

  /** The index of a field name in the declaration, as keyword binding looks it up. */
  function FieldIndex(name: string): (r: Option<nat>)
    ensures r.Some? ==> r.value < FieldCount && FieldNames[r.value] == name
  {
    if name == "passing" then Some(0)
    else if name == "crossing" then Some(1)
    else if name == "dribbling" then Some(2)
    else if name == "first_touch" then Some(3)
    else if name == "marking" then Some(4)
    else if name == "tackling" then Some(5)
    else if name == "pace" then Some(6)
    else if name == "acceleration" then Some(7)
    else if name == "stamina" then Some(8)
    else if name == "vision" then Some(9)
    else None
  }

  /** Each field name is found at its own index, so the ten names are distinct. */
  lemma FieldNamesDistinct()
    ensures forall i :: 0 <= i < FieldCount ==> FieldIndex(FieldNames[i]) == Some(i)
    ensures forall i, j :: 0 <= i < j < FieldCount ==> FieldNames[i] != FieldNames[j]
  {
    forall i | 0 <= i < FieldCount ensures FieldIndex(FieldNames[i]) == Some(i) {
    }
  }

  /** A sequence without repetitions has as many distinct members as elements. */
  lemma {:induction false} DistinctCardinality(xs: seq<string>)
    requires forall i, j :: 0 <= i < j < |xs| ==> xs[i] != xs[j]
    ensures |set i | 0 <= i < |xs| :: xs[i]| == |xs|
  {
    if xs != [] {
      var t := xs[1..];
      DistinctCardinality(t);
      var all := set i | 0 <= i < |xs| :: xs[i];
      var rest := set i | 0 <= i < |t| :: t[i];
      forall x | x in all ensures x in rest + {xs[0]} {
        var i :| 0 <= i < |xs| && xs[i] == x;
        if i > 0 { assert t[i - 1] == x; }
      }
      forall x | x in rest ensures x in all && x != xs[0] {
        var i :| 0 <= i < |t| && t[i] == x;
        assert xs[i + 1] == x;
      }
      assert all == rest + {xs[0]};
    }
  }

  /** The map form has exactly ten keys. */
  lemma FieldSetSize()
    ensures |FieldSet| == FieldCount
  {
    FieldNamesDistinct();
    DistinctCardinality(FieldNames);
    assert FieldSet == set i | 0 <= i < |FieldNames| :: FieldNames[i];
  }

  /** The map form: exactly the ten field names as keys, each bound to its rating. */
  function ToMap(s: PlayerStats): (m: map<string, int>)
    ensures m.Keys == FieldSet
    ensures forall i :: 0 <= i < FieldCount ==> m[FieldNames[i]] == Fields(s)[i]
  {
    FieldNamesDistinct();
    map k | k in FieldSet :: Fields(s)[KeyIndex(k)]
  }

  /** The index of a key of the map form. */
  function KeyIndex(k: string): (i: nat)
    requires k in FieldSet
    ensures i < FieldCount && FieldNames[i] == k
  {
    FieldNamesDistinct();
    FieldIndex(k).value
  }

  /** The names of `names` that `m` lacks. */
  function Missing(names: seq<string>, m: map<string, int>): (r: seq<string>)
    ensures forall n :: n in r <==> n in names && n !in m
  {
    if names == [] then []
    else if names[0] in m then Missing(names[1..], m)
    else [names[0]] + Missing(names[1..], m)
  }

  /** Nothing is missing from a map that has every name. */
  lemma {:induction false} MissingNone(names: seq<string>, m: map<string, int>)
    requires forall i :: 0 <= i < |names| ==> names[i] in m
    ensures Missing(names, m) == []
  {
    if names != [] {
      MissingNone(names[1..], m);
    }
  }

  /** The ratings a complete map gives. */
  function FromKeys(m: map<string, int>): (s: PlayerStats)
    requires FieldSet <= m.Keys
    ensures forall i :: 0 <= i < FieldCount ==> Fields(s)[i] == m[FieldNames[i]]
  {
    assert forall i :: 0 <= i < FieldCount ==> FieldNames[i] in FieldSet;
    PlayerStats(
      m[FieldNames[0]], m[FieldNames[1]], m[FieldNames[2]], m[FieldNames[3]],
      m[FieldNames[4]], m[FieldNames[5]],
      m[FieldNames[6]], m[FieldNames[7]], m[FieldNames[8]],
      m[FieldNames[9]])
  }

  /** `from_dict`, binding the map's entries as keyword arguments: a key that names no
      rating is refused first, then a missing rating, then the construction check runs. */
  function FromMap(m: map<string, int>): (r: Result<ValidStats, StatsError>)
    ensures !(m.Keys <= FieldSet) ==> r == Failure(UnexpectedKeys(m.Keys - FieldSet))
    ensures m.Keys <= FieldSet && m.Keys != FieldSet ==>
      r.Failure? && r.error.MissingKeys?
      && (forall n :: n in r.error.missing <==> n in FieldSet - m.Keys)
    ensures m.Keys == FieldSet ==> r == Validate(FromKeys(m))
    ensures m.Keys == FieldSet ==>
      (r.Success? <==> forall k :: k in m ==> InRange(m[k]))
    ensures r.Success? ==> ToMap(r.value) == m
  {
    if !(m.Keys <= FieldSet) then
      Failure(UnexpectedKeys(m.Keys - FieldSet))
    else
      var missing := Missing(FieldNames, m);
      if missing != [] then
        assert missing[0] in missing;
        Failure(MissingKeys(missing))
      else
        assert FieldSet <= m.Keys;
        var s := FromKeys(m);
        var r := Validate(s);
        FromMapAgrees(m, s);
        r
  }

  /** For a complete map, the ratings read from it are in range iff its values are,
      and writing them back gives the map. */
  lemma FromMapAgrees(m: map<string, int>, s: PlayerStats)
    requires m.Keys == FieldSet && s == FromKeys(m)
    ensures Valid(s) <==> forall k :: k in m ==> InRange(m[k])
    ensures ToMap(s) == m
  {
    if Valid(s) {
      forall k | k in m ensures InRange(m[k]) {
        var i := KeyIndex(k);
        assert Fields(s)[i] == m[k];
      }
    }
    if forall k :: k in m ==> InRange(m[k]) {
      forall i | 0 <= i < FieldCount ensures InRange(Fields(s)[i]) {
        assert FieldNames[i] in FieldSet;
      }
    }
    var t := ToMap(s);
    forall k | k in m ensures t[k] == m[k] {
      var i := KeyIndex(k);
      assert t[FieldNames[i]] == Fields(s)[i];
    }
  }

  /** Round trip: converting to the map form and back gives the same result as
      constructing directly, so a valid record comes back equal. */
  lemma FromMapToMap(s: PlayerStats)
    ensures FromMap(ToMap(s)) == Validate(s)
    ensures Valid(s) ==> FromMap(ToMap(s)) == Success(s)
  {
    var m := ToMap(s);
    forall i | 0 <= i < |FieldNames| ensures FieldNames[i] in m {
      assert FieldNames[i] in FieldSet;
    }
    MissingNone(FieldNames, m);
    var t := FromKeys(m);
    assert Fields(t) == Fields(s);
  }

  /** The fixture record used throughout the tests. */
  const Fixture: PlayerStats := PlayerStats(15, 10, 12, 14, 8, 9, 13, 11, 16, 13)

  /** The fixture is valid and its technical average is exactly (15 + 10 + 12 + 14) / 4. */
  lemma FixtureAverages()
    ensures Validate(Fixture) == Success(Fixture)
    ensures TechnicalAverage(Fixture) == 12.75
  {
    assert Valid(Fixture);
  }

  /** The fixture's map form binds passing to 15 and vision to 13. */
  lemma FixtureMap()
    ensures "passing" in ToMap(Fixture) && ToMap(Fixture)["passing"] == 15
    ensures "vision" in ToMap(Fixture) && ToMap(Fixture)["vision"] == 13
    ensures |ToMap(Fixture)| == 10
  {
    assert FieldNames[0] == "passing" && FieldNames[9] == "vision";
    FieldSetSize();
  }

  /** A passing of 0 is rejected, naming passing. */
  lemma ZeroPassingRejected()
    ensures Validate(Fixture.(passing := 0)) == Failure(OutOfRange("passing", 0))
  {
    SingleRatingBounds(Fixture, 0, 0);
  }

  /** The message of that rejection. */
  lemma ZeroPassingMessage()
    ensures Message(OutOfRange("passing", 0)) == "passing must be between 1 and 20, got 0"
  {
    assert IntToString(0) == "0";
    ZeroPassingText();
  }

  /** The literal of that message, assembled from its parts. */
  lemma ZeroPassingText()
    ensures "passing" + " must be between 1 and 20, got " + "0" == "passing must be between 1 and 20, got 0"
  {
  }
}
