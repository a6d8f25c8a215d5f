/** The score engine of the livability dashboard (`calculate_scores`):
    five raw metric columns are min-max normalised to 0-100 over the whole
    county, four of them reversed because a lower raw value is better, and
    a fixed-weight composite livability score is added to every row.
    Arithmetic is exact (`real`); the source's floating point is not modelled. */
module Scoring {

  /** One zip code's row of the input table, with every raw column. */
  datatype Region = Region(
    zipCode: string,
    city: string,
    latitude: real,
    longitude: real,
    crimeRate: real,
    educationIndex: real,
    unemploymentRate: real,
    housingBurden: real,
    transportationIndex: real,
    population: real,
    medianIncome: real,
    medianHomeValue: real,
    pctBachelorsPlus: real,
    meanCommuteTime: real)

  /** The five raw metrics that feed a sub-score. */
  datatype Metric = Crime | Education | Unemployment | Housing | Transportation {
    /** Every metric except the education index is reversed. */
    predicate LowerIsBetter() {
      !Education?
    }
  }

  function Raw(r: Region, m: Metric): real {
    match m
    case Crime => r.crimeRate
    case Education => r.educationIndex
    case Unemployment => r.unemploymentRate
    case Housing => r.housingBurden
    case Transportation => r.transportationIndex
  }

  /** The six columns the engine adds to a row. */
  datatype Scores = Scores(
    crime: real,
    education: real,
    jobs: real,
    housing: real,
    transportation: real,
    livability: real)
  {
    /** The sub-score computed from metric m (`jobs` comes from unemployment). */
    function Of(m: Metric): real {
      match m
      case Crime => crime
      case Education => education
      case Unemployment => jobs
      case Housing => housing
      case Transportation => transportation
    }
  }

  datatype ScoredRegion = ScoredRegion(region: Region, scores: Scores)

  function Column(rows: seq<Region>, m: Metric): seq<real> {
    seq(|rows|, i requires 0 <= i < |rows| => Raw(rows[i], m))
  }

  /** Column minimum (pandas `.min()`). */
  function Min(s: seq<real>): (lo: real)
    requires |s| > 0
    ensures exists k :: 0 <= k < |s| && s[k] == lo
    ensures forall k :: 0 <= k < |s| ==> lo <= s[k]
  {
    if |s| == 1 then s[0]
    else
      var rest := Min(s[..|s| - 1]);
      if s[|s| - 1] < rest then s[|s| - 1] else rest
  }

  /** Column maximum (pandas `.max()`). */
  function Max(s: seq<real>): (hi: real)
    requires |s| > 0
    ensures exists k :: 0 <= k < |s| && s[k] == hi
    ensures forall k :: 0 <= k < |s| ==> s[k] <= hi
  {
    if |s| == 1 then s[0]
    else
      var rest := Max(s[..|s| - 1]);
      if s[|s| - 1] > rest then s[|s| - 1] else rest
  }

  /** Every column has at least two distinct values. The source divides by
      max - min without a guard, so this is what it demands of its input. */
  predicate NonDegenerate(rows: seq<Region>) {
    |rows| > 0 && forall m: Metric :: Min(Column(rows, m)) < Max(Column(rows, m))
  }

  datatype Range = Range(lo: real, hi: real)

  /** The minimum and maximum of each of the five columns. */
  datatype Ranges = Ranges(crime: Range, education: Range, unemployment: Range, housing: Range, transportation: Range) {
    function Of(m: Metric): Range {
      match m
      case Crime => crime
      case Education => education
      case Unemployment => unemployment
      case Housing => housing
      case Transportation => transportation
    }

    predicate Valid() {
      forall m: Metric :: Of(m).lo < Of(m).hi
    }
  }

  function ColumnRange(rows: seq<Region>, m: Metric): Range
    requires |rows| > 0
  {
    Range(Min(Column(rows, m)), Max(Column(rows, m)))
  }

  function TableRanges(rows: seq<Region>): (rs: Ranges)
    requires |rows| > 0
    ensures forall m: Metric :: rs.Of(m) == ColumnRange(rows, m)
    ensures NonDegenerate(rows) ==> rs.Valid()
  {
    Ranges(ColumnRange(rows, Crime), ColumnRange(rows, Education), ColumnRange(rows, Unemployment),
           ColumnRange(rows, Housing), ColumnRange(rows, Transportation))
  }

  /** Min-max scaling of v onto 0-100, reversed (100 minus it) when a lower raw value is better. */
  function Scale(v: real, lo: real, hi: real, lowerIsBetter: bool): (score: real)
    requires lo < hi
    ensures lowerIsBetter ==> score * (hi - lo) == 100.0 * (hi - v)
    ensures !lowerIsBetter ==> score * (hi - lo) == 100.0 * (v - lo)
  {
    var normalized := (v - lo) / (hi - lo) * 100.0;
    assert (v - lo) / (hi - lo) * (hi - lo) == v - lo;
    if lowerIsBetter then 100.0 - normalized else normalized
  }

  lemma FractionInUnit(a: real, d: real)
    requires 0.0 <= a <= d && d > 0.0
    ensures 0.0 <= a / d <= 1.0
  {
    assert (a / d) * d == a;
  }

  lemma ScaleBounds(v: real, lo: real, hi: real, lowerIsBetter: bool)
    requires lo <= v <= hi && lo < hi
    ensures 0.0 <= Scale(v, lo, hi, lowerIsBetter) <= 100.0
  {
    FractionInUnit(v - lo, hi - lo);
  }

  /** The column minimum scores 100 on a reversed metric and 0 otherwise;
      the column maximum the other way round. */
  lemma ScaleEndpoints(lo: real, hi: real, lowerIsBetter: bool)
    requires lo < hi
    ensures Scale(lo, lo, hi, lowerIsBetter) == if lowerIsBetter then 100.0 else 0.0
    ensures Scale(hi, lo, hi, lowerIsBetter) == if lowerIsBetter then 0.0 else 100.0
  {
    assert (hi - lo) / (hi - lo) == 1.0;
  }

  lemma ScaleMonotone(v: real, w: real, lo: real, hi: real, lowerIsBetter: bool)
    requires v <= w && lo < hi
    ensures lowerIsBetter ==> Scale(w, lo, hi, lowerIsBetter) <= Scale(v, lo, hi, lowerIsBetter)
    ensures !lowerIsBetter ==> Scale(v, lo, hi, lowerIsBetter) <= Scale(w, lo, hi, lowerIsBetter)
  {
    var d := hi - lo;
    var x, y := (v - lo) / d, (w - lo) / d;
    assert x * d == v - lo;
    assert y * d == w - lo;
    assert (y - x) * d == w - v;
  }

  const CrimeWeight: real := 0.25
  const EducationWeight: real := 0.25
  const JobsWeight: real := 0.20
  const HousingWeight: real := 0.20
  const TransportationWeight: real := 0.10

  /** The fixed-weight composite. Because the weights are positive and sum
      to 1 it stays within the range of its inputs. */
  function Livability(crime: real, education: real, jobs: real, housing: real, transportation: real): (l: real)
    ensures 0.0 <= crime <= 100.0 && 0.0 <= education <= 100.0 && 0.0 <= jobs <= 100.0
            && 0.0 <= housing <= 100.0 && 0.0 <= transportation <= 100.0
            ==> 0.0 <= l <= 100.0
    ensures crime == education == jobs == housing == transportation ==> l == crime
  {
    crime * CrimeWeight + education * EducationWeight + jobs * JobsWeight
    + housing * HousingWeight + transportation * TransportationWeight
  }

  lemma WeightsSumToOne()
    ensures CrimeWeight + EducationWeight + JobsWeight + HousingWeight + TransportationWeight == 1.0
  {
  }

  /** Raising any one sub-score never lowers the composite. */
  lemma LivabilityMonotone(a: Scores, b: Scores)
    requires forall m: Metric :: a.Of(m) <= b.Of(m)
    ensures Livability(a.crime, a.education, a.jobs, a.housing, a.transportation)
         <= Livability(b.crime, b.education, b.jobs, b.housing, b.transportation)
  {
    assert a.Of(Crime) <= b.Of(Crime) && a.Of(Education) <= b.Of(Education);
    assert a.Of(Unemployment) <= b.Of(Unemployment) && a.Of(Housing) <= b.Of(Housing);
    assert a.Of(Transportation) <= b.Of(Transportation);
  }

  /** Sub-scores 90, 80, 70, 60, 50 give a composite of 73.5. */
  lemma LivabilityExample()
    ensures Livability(90.0, 80.0, 70.0, 60.0, 50.0) == 73.5
  {
  }

  function SubScore(r: Region, m: Metric, rs: Ranges): real
    requires rs.Valid()
  {
    Scale(Raw(r, m), rs.Of(m).lo, rs.Of(m).hi, m.LowerIsBetter())
  }

  /** The six score columns of one row, given the county's column ranges. */
  function ScoreRegion(r: Region, rs: Ranges): (s: ScoredRegion)
    requires rs.Valid()
    ensures s.region == r
    ensures forall m: Metric :: s.scores.Of(m) == SubScore(r, m, rs)
    ensures s.scores.livability
         == Livability(s.scores.crime, s.scores.education, s.scores.jobs, s.scores.housing, s.scores.transportation)
  {
    var crime := SubScore(r, Crime, rs);
    var education := SubScore(r, Education, rs);
    var jobs := SubScore(r, Unemployment, rs);
    var housing := SubScore(r, Housing, rs);
    var transportation := SubScore(r, Transportation, rs);
    ScoredRegion(r, Scores(crime, education, jobs, housing, transportation,
                           Livability(crime, education, jobs, housing, transportation)))
  }

  /** What `calculate_scores` returns: the same rows in the same order,
      raw columns untouched, each with its six score columns. */
  function ScoreTable(rows: seq<Region>): (out: seq<ScoredRegion>)
    requires NonDegenerate(rows)
    ensures |out| == |rows|
    ensures forall i :: 0 <= i < |rows| ==> out[i].region == rows[i]
  {
    var rs := TableRanges(rows);
    seq(|rows|, i requires 0 <= i < |rows| => ScoreRegion(rows[i], rs))
  }

  /** The min and max of a column, by a single pass over it. */
  method MinMax(col: seq<real>) returns (lo: real, hi: real)
    requires |col| > 0
    ensures lo == Min(col) && hi == Max(col)
  {
    lo, hi := col[0], col[0];
    for i := 1 to |col|
      invariant lo == Min(col[..i]) && hi == Max(col[..i])
    {
      assert col[..i + 1][..i] == col[..i];
      if col[i] < lo {
        lo := col[i];
      }
      if col[i] > hi {
        hi := col[i];
      }
    }
    assert col[..|col|] == col;
  }

  method ComputeColumnRange(rows: seq<Region>, m: Metric) returns (range: Range)
    requires |rows| > 0
    ensures range == ColumnRange(rows, m)
  {
    var lo, hi := MinMax(Column(rows, m));
    range := Range(lo, hi);
  }

  /** Adds the six score columns to every row, given the column ranges. */
  method FillScores(rows: seq<Region>, rs: Ranges) returns (scored: seq<ScoredRegion>)
    requires rs.Valid()
    ensures |scored| == |rows|
    ensures forall k :: 0 <= k < |rows| ==> scored[k] == ScoreRegion(rows[k], rs)
  {
    scored := [];
    for i := 0 to |rows|
      invariant |scored| == i
      invariant forall k :: 0 <= k < i ==> scored[k] == ScoreRegion(rows[k], rs)
    {
      scored := scored + [ScoreRegion(rows[i], rs)];
    }
  }

  /** `calculate_scores`: computes the five column ranges, then the score
      columns of every row of a fresh copy of the table. */
  method CalculateScores(rows: seq<Region>) returns (scored: seq<ScoredRegion>)
    requires NonDegenerate(rows)
    ensures scored == ScoreTable(rows)
  {
    var crime := ComputeColumnRange(rows, Crime);
    var education := ComputeColumnRange(rows, Education);
    var unemployment := ComputeColumnRange(rows, Unemployment);
    var housing := ComputeColumnRange(rows, Housing);
    var transportation := ComputeColumnRange(rows, Transportation);
    var rs := Ranges(crime, education, unemployment, housing, transportation);
    assert TableRanges(rows).Valid();
    assert rs == TableRanges(rows);
    scored := FillScores(rows, rs);
  }

  /** A row's raw value lies between its column's minimum and maximum. */
  lemma RawWithinRange(rows: seq<Region>, i: int, m: Metric)
    requires 0 <= i < |rows|
    ensures ColumnRange(rows, m).lo <= Raw(rows[i], m) <= ColumnRange(rows, m).hi
  {
    assert Column(rows, m)[i] == Raw(rows[i], m);
  }

  /** Every sub-score and the composite of every row lie in [0, 100]. */
  lemma ScoresInRange(rows: seq<Region>, i: int)
    requires NonDegenerate(rows) && 0 <= i < |rows|
    ensures forall m: Metric :: 0.0 <= ScoreTable(rows)[i].scores.Of(m) <= 100.0
    ensures 0.0 <= ScoreTable(rows)[i].scores.livability <= 100.0
  {
    var rs := TableRanges(rows);
    var s := ScoreTable(rows)[i].scores;
    forall m: Metric
      ensures 0.0 <= s.Of(m) <= 100.0
    {
      RawWithinRange(rows, i, m);
      ScaleBounds(Raw(rows[i], m), rs.Of(m).lo, rs.Of(m).hi, m.LowerIsBetter());
    }
    assert s.crime == s.Of(Crime) && s.education == s.Of(Education) && s.jobs == s.Of(Unemployment);
    assert s.housing == s.Of(Housing) && s.transportation == s.Of(Transportation);
  }

  /** A row holding its column's minimum scores 100 on a reversed metric
      and 0 on education; a row holding the maximum scores the reverse. */
  lemma ScoresAtColumnExtremes(rows: seq<Region>, i: int, m: Metric)
    requires NonDegenerate(rows) && 0 <= i < |rows|
    ensures Raw(rows[i], m) == Min(Column(rows, m)) ==>
              ScoreTable(rows)[i].scores.Of(m) == if m.LowerIsBetter() then 100.0 else 0.0
    ensures Raw(rows[i], m) == Max(Column(rows, m)) ==>
              ScoreTable(rows)[i].scores.Of(m) == if m.LowerIsBetter() then 0.0 else 100.0
  {
    var rs := TableRanges(rows);
    ScaleEndpoints(rs.Of(m).lo, rs.Of(m).hi, m.LowerIsBetter());
  }

  /** Both extremes are attained: in every column some row scores 100 and some row scores 0. */
  lemma ExtremeScoresAttained(rows: seq<Region>, m: Metric)
    requires NonDegenerate(rows)
    ensures exists i :: 0 <= i < |rows| && ScoreTable(rows)[i].scores.Of(m) == 100.0
    ensures exists i :: 0 <= i < |rows| && ScoreTable(rows)[i].scores.Of(m) == 0.0
  {
    var col := Column(rows, m);
    var lo :| 0 <= lo < |col| && col[lo] == Min(col);
    var hi :| 0 <= hi < |col| && col[hi] == Max(col);
    ScoresAtColumnExtremes(rows, lo, m);
    ScoresAtColumnExtremes(rows, hi, m);
    if m.LowerIsBetter() {
      assert ScoreTable(rows)[lo].scores.Of(m) == 100.0;
      assert ScoreTable(rows)[hi].scores.Of(m) == 0.0;
    } else {
      assert ScoreTable(rows)[hi].scores.Of(m) == 100.0;
      assert ScoreTable(rows)[lo].scores.Of(m) == 0.0;
    }
  }

  /** Within one column, a larger raw value never gives a larger sub-score
      on a reversed metric, and never a smaller one on education. */
  lemma ScoreMonotoneInColumn(rows: seq<Region>, i: int, j: int, m: Metric)
    requires NonDegenerate(rows) && 0 <= i < |rows| && 0 <= j < |rows|
    requires Raw(rows[i], m) <= Raw(rows[j], m)
    ensures m.LowerIsBetter() ==> ScoreTable(rows)[j].scores.Of(m) <= ScoreTable(rows)[i].scores.Of(m)
    ensures !m.LowerIsBetter() ==> ScoreTable(rows)[i].scores.Of(m) <= ScoreTable(rows)[j].scores.Of(m)
  {
    var rs := TableRanges(rows);
    ScaleMonotone(Raw(rows[i], m), Raw(rows[j], m), rs.Of(m).lo, rs.Of(m).hi, m.LowerIsBetter());
  }
}
