/** Threshold ladders in general: a list of ascending cut points and the
    number of them a value has reached (higher is better) or exceeded
    (lower is better). Every interpretive lookup of the dashboard is an
    if/elif chain that is proved to agree with one of these counts. */
module Ladders {

  /** The cut points are strictly increasing. */
  predicate Ascending(ts: seq<real>) {
    forall i, j :: 0 <= i < j < |ts| ==> ts[i] < ts[j]
  }

  /** Number of cut points at or below v (a value on a cut point reaches it). */
  function Reached(v: real, ts: seq<real>): (n: nat)
    ensures n <= |ts|
  {
    if ts == [] then 0 else (if ts[0] <= v then 1 else 0) + Reached(v, ts[1..])
  }

  /** Number of cut points strictly below v (a value on a cut point does not exceed it). */
  function Exceeded(v: real, ts: seq<real>): (n: nat)
    ensures n <= |ts|
  {
    if ts == [] then 0 else (if ts[0] < v then 1 else 0) + Exceeded(v, ts[1..])
  }

  /** A value in the band [ts[k-1], ts[k]) has reached exactly k cut points. */
  lemma {:induction false} ReachedBetween(v: real, ts: seq<real>, k: nat)
    requires Ascending(ts) && k <= |ts|
    requires k > 0 ==> ts[k - 1] <= v
    requires k < |ts| ==> v < ts[k]
    ensures Reached(v, ts) == k
  {
    if ts != [] {
      ReachedBetween(v, ts[1..], if k > 0 then k - 1 else 0);
    }
  }

  /** A value in the band (ts[k-1], ts[k]] has exceeded exactly k cut points. */
  lemma {:induction false} ExceededBetween(v: real, ts: seq<real>, k: nat)
    requires Ascending(ts) && k <= |ts|
    requires k > 0 ==> ts[k - 1] < v
    requires k < |ts| ==> v <= ts[k]
    ensures Exceeded(v, ts) == k
  {
    if ts != [] {
      ExceededBetween(v, ts[1..], if k > 0 then k - 1 else 0);
    }
  }

  /** Boundary rule of a higher-is-better ladder: a value exactly on cut
      point k belongs to the band above it. */
  lemma ReachedAtCutPoint(ts: seq<real>, k: nat)
    requires Ascending(ts) && k < |ts|
    ensures Reached(ts[k], ts) == k + 1
  {
    ReachedBetween(ts[k], ts, k + 1);
  }

  /** Boundary rule of a lower-is-better ladder: a value exactly on cut
      point k belongs to the (better) band below it. */
  lemma ExceededAtCutPoint(ts: seq<real>, k: nat)
    requires Ascending(ts) && k < |ts|
    ensures Exceeded(ts[k], ts) == k
  {
    ExceededBetween(ts[k], ts, k);
  }

  lemma {:induction false} ReachedMonotone(v: real, w: real, ts: seq<real>)
    requires v <= w
    ensures Reached(v, ts) <= Reached(w, ts)
  {
    if ts != [] {
      ReachedMonotone(v, w, ts[1..]);
    }
  }

  lemma {:induction false} ExceededMonotone(v: real, w: real, ts: seq<real>)
    requires v <= w
    ensures Exceeded(v, ts) <= Exceeded(w, ts)
  {
    if ts != [] {
      ExceededMonotone(v, w, ts[1..]);
    }
  }
}

/** The interpretive lookups of the dashboard: overall rating of a 0-100
    score, the map-marker colour band, and the six plain-language readings
    of raw metrics. Each is an if/elif chain; `Tier()` numbers its outcomes
    from worst (0) to best for higher-is-better ladders, and `Severity()`
    numbers them from best (0) to worst for lower-is-better ones. */
module Interpret {
  import opened Ladders

  /** Result of `interpret_score`: the tuple (label, colour, icon) is
      (Label(), Color(), Icon()). */
  datatype Rating = NeedsImprovement | Average | Good | Excellent {
    function Tier(): nat {
      match this
      case NeedsImprovement => 0
      case Average => 1
      case Good => 2
      case Excellent => 3
    }
    function Label(): string {
      match this
      case Excellent => "Excellent"
      case Good => "Good"
      case Average => "Average"
      case NeedsImprovement => "Needs Improvement"
    }
    function Color(): string {
      match this
      case Excellent => "#10b981"
      case Good => "#3b82f6"
      case Average => "#f59e0b"
      case NeedsImprovement => "#ef4444"
    }
    function Icon(): string {
      match this
      case Excellent => "🌟"
      case Good => "✅"
      case Average => "⚠️"
      case NeedsImprovement => "❌"
    }
  }

  const ScoreCuts: seq<real> := [50.0, 65.0, 80.0]

  function InterpretScore(score: real): (r: Rating)
    ensures r.Tier() == Reached(score, ScoreCuts)
  {
    var r :=
      if score >= 80.0 then Excellent
      else if score >= 65.0 then Good
      else if score >= 50.0 then Average
      else NeedsImprovement;
    ReachedBetween(score, ScoreCuts, r.Tier());
    r
  }

  lemma InterpretScoreMonotone(a: real, b: real)
    requires a <= b
    ensures InterpretScore(a).Tier() <= InterpretScore(b).Tier()
  {
    ReachedMonotone(a, b, ScoreCuts);
  }

  lemma InterpretScoreBoundaries()
    ensures InterpretScore(80.0) == Excellent
    ensures InterpretScore(65.0) == Good
    ensures InterpretScore(50.0) == Average
  {
    ReachedAtCutPoint(ScoreCuts, 2);
    ReachedAtCutPoint(ScoreCuts, 1);
    ReachedAtCutPoint(ScoreCuts, 0);
  }

  const MarkerCuts: seq<real> := [45.0, 60.0, 75.0]

  /** Colour band of a map marker; the marker's colour is `Color()` of the band. */
  function MarkerBand(score: real): (r: Rating)
    ensures r.Tier() == Reached(score, MarkerCuts)
  {
    var r :=
      if score >= 75.0 then Excellent
      else if score >= 60.0 then Good
      else if score >= 45.0 then Average
      else NeedsImprovement;
    ReachedBetween(score, MarkerCuts, r.Tier());
    r
  }

  lemma MarkerBandMonotone(a: real, b: real)
    requires a <= b
    ensures MarkerBand(a).Tier() <= MarkerBand(b).Tier()
  {
    ReachedMonotone(a, b, MarkerCuts);
  }

  lemma MarkerBandBoundaries()
    ensures MarkerBand(75.0) == Excellent
    ensures MarkerBand(60.0) == Good
    ensures MarkerBand(45.0) == Average
  {
    ReachedAtCutPoint(MarkerCuts, 2);
    ReachedAtCutPoint(MarkerCuts, 1);
    ReachedAtCutPoint(MarkerCuts, 0);
  }

  /** The map's bands start 5 points lower than the score card's, so a
      marker is never coloured worse than the card rates the same score,
      and for scores in [75, 80) it is coloured one band better. */
  lemma MarkerNeverBelowCard(score: real)
    ensures MarkerBand(score).Tier() >= InterpretScore(score).Tier()
    ensures 75.0 <= score < 80.0 ==> MarkerBand(score).Tier() == InterpretScore(score).Tier() + 1
  {
  }

  datatype IncomeLevel = LowerIncome | MiddleIncome | UpperMiddleIncome | HighIncome | VeryHighIncome {
    function Tier(): nat {
      match this
      case LowerIncome => 0
      case MiddleIncome => 1
      case UpperMiddleIncome => 2
      case HighIncome => 3
      case VeryHighIncome => 4
    }
    function Text(): string {
      match this
      case VeryHighIncome => "Very High Income - Top tier economic status"
      case HighIncome => "High Income - Above average prosperity"
      case UpperMiddleIncome => "Upper Middle Income - Comfortable living"
      case MiddleIncome => "Middle Income - Moderate economic status"
      case LowerIncome => "Lower Income - Economic challenges present"
    }
  }

  const IncomeCuts: seq<real> := [50000.0, 75000.0, 100000.0, 150000.0]

  function InterpretIncome(income: real): (r: IncomeLevel)
    ensures r.Tier() == Reached(income, IncomeCuts)
  {
    var r :=
      if income >= 150000.0 then VeryHighIncome
      else if income >= 100000.0 then HighIncome
      else if income >= 75000.0 then UpperMiddleIncome
      else if income >= 50000.0 then MiddleIncome
      else LowerIncome;
    ReachedBetween(income, IncomeCuts, r.Tier());
    r
  }

  lemma InterpretIncomeMonotone(a: real, b: real)
    requires a <= b
    ensures InterpretIncome(a).Tier() <= InterpretIncome(b).Tier()
  {
    ReachedMonotone(a, b, IncomeCuts);
  }

  lemma InterpretIncomeBoundaries()
    ensures InterpretIncome(150000.0) == VeryHighIncome
    ensures InterpretIncome(100000.0) == HighIncome
    ensures InterpretIncome(75000.0) == UpperMiddleIncome
    ensures InterpretIncome(50000.0) == MiddleIncome
  {
    ReachedAtCutPoint(IncomeCuts, 3);
    ReachedAtCutPoint(IncomeCuts, 2);
    ReachedAtCutPoint(IncomeCuts, 1);
    ReachedAtCutPoint(IncomeCuts, 0);
  }

  datatype EducationLevel = LowEducation | LowerEducation | ModeratelyEducated | WellEducated | HighlyEducated {
    function Tier(): nat {
      match this
      case LowEducation => 0
      case LowerEducation => 1
      case ModeratelyEducated => 2
      case WellEducated => 3
      case HighlyEducated => 4
    }
    function Text(): string {
      match this
      case HighlyEducated => "Highly Educated - Strong intellectual capital"
      case WellEducated => "Well Educated - Above average educational attainment"
      case ModeratelyEducated => "Moderately Educated - Average education levels"
      case LowerEducation => "Lower Education - Below average attainment"
      case LowEducation => "Low Education - Significant educational gaps"
    }
  }

  const EducationCuts: seq<real> := [30.0, 45.0, 60.0, 75.0]

  function InterpretEducation(pct: real): (r: EducationLevel)
    ensures r.Tier() == Reached(pct, EducationCuts)
  {
    var r :=
      if pct >= 75.0 then HighlyEducated
      else if pct >= 60.0 then WellEducated
      else if pct >= 45.0 then ModeratelyEducated
      else if pct >= 30.0 then LowerEducation
      else LowEducation;
    ReachedBetween(pct, EducationCuts, r.Tier());
    r
  }

  lemma InterpretEducationMonotone(a: real, b: real)
    requires a <= b
    ensures InterpretEducation(a).Tier() <= InterpretEducation(b).Tier()
  {
    ReachedMonotone(a, b, EducationCuts);
  }

  lemma InterpretEducationBoundaries()
    ensures InterpretEducation(75.0) == HighlyEducated
    ensures InterpretEducation(60.0) == WellEducated
    ensures InterpretEducation(45.0) == ModeratelyEducated
    ensures InterpretEducation(30.0) == LowerEducation
  {
    ReachedAtCutPoint(EducationCuts, 3);
    ReachedAtCutPoint(EducationCuts, 2);
    ReachedAtCutPoint(EducationCuts, 1);
    ReachedAtCutPoint(EducationCuts, 0);
  }

  datatype JobMarket = ExcellentJobMarket | StrongJobMarket | ModerateJobMarket | WeakJobMarket {
    function Severity(): nat {
      match this
      case ExcellentJobMarket => 0
      case StrongJobMarket => 1
      case ModerateJobMarket => 2
      case WeakJobMarket => 3
    }
    function Text(): string {
      match this
      case ExcellentJobMarket => "Excellent Job Market - Very low unemployment"
      case StrongJobMarket => "Strong Job Market - Healthy employment"
      case ModerateJobMarket => "Moderate Job Market - Average unemployment"
      case WeakJobMarket => "Weak Job Market - High unemployment challenges"
    }
  }

  const UnemploymentCuts: seq<real> := [2.5, 4.0, 6.0]

  function InterpretUnemployment(rate: real): (r: JobMarket)
    ensures r.Severity() == Exceeded(rate, UnemploymentCuts)
  {
    var r :=
      if rate <= 2.5 then ExcellentJobMarket
      else if rate <= 4.0 then StrongJobMarket
      else if rate <= 6.0 then ModerateJobMarket
      else WeakJobMarket;
    ExceededBetween(rate, UnemploymentCuts, r.Severity());
    r
  }

  lemma InterpretUnemploymentMonotone(a: real, b: real)
    requires a <= b
    ensures InterpretUnemployment(a).Severity() <= InterpretUnemployment(b).Severity()
  {
    ExceededMonotone(a, b, UnemploymentCuts);
  }

  lemma InterpretUnemploymentBoundaries()
    ensures InterpretUnemployment(2.5) == ExcellentJobMarket
    ensures InterpretUnemployment(4.0) == StrongJobMarket
    ensures InterpretUnemployment(6.0) == ModerateJobMarket
  {
    ExceededAtCutPoint(UnemploymentCuts, 0);
    ExceededAtCutPoint(UnemploymentCuts, 1);
    ExceededAtCutPoint(UnemploymentCuts, 2);
  }

  datatype Affordability = VeryAffordable | Affordable | ModeratelyExpensive | Expensive {
    function Severity(): nat {
      match this
      case VeryAffordable => 0
      case Affordable => 1
      case ModeratelyExpensive => 2
      case Expensive => 3
    }
    function Text(): string {
      match this
      case VeryAffordable => "Very Affordable - Low housing cost burden"
      case Affordable => "Affordable - Manageable housing costs"
      case ModeratelyExpensive => "Moderately Expensive - Above average costs"
      case Expensive => "Expensive - High housing cost burden"
    }
  }

  const HousingCuts: seq<real> := [28.0, 32.0, 38.0]

  function InterpretHousing(burden: real): (r: Affordability)
    ensures r.Severity() == Exceeded(burden, HousingCuts)
  {
    var r :=
      if burden <= 28.0 then VeryAffordable
      else if burden <= 32.0 then Affordable
      else if burden <= 38.0 then ModeratelyExpensive
      else Expensive;
    ExceededBetween(burden, HousingCuts, r.Severity());
    r
  }

  lemma InterpretHousingMonotone(a: real, b: real)
    requires a <= b
    ensures InterpretHousing(a).Severity() <= InterpretHousing(b).Severity()
  {
    ExceededMonotone(a, b, HousingCuts);
  }

  lemma InterpretHousingBoundaries()
    ensures InterpretHousing(28.0) == VeryAffordable
    ensures InterpretHousing(32.0) == Affordable
    ensures InterpretHousing(38.0) == ModeratelyExpensive
  {
    ExceededAtCutPoint(HousingCuts, 0);
    ExceededAtCutPoint(HousingCuts, 1);
    ExceededAtCutPoint(HousingCuts, 2);
  }

  datatype Commute = VeryShortCommute | ReasonableCommute | TypicalCommute | LongCommute {
    function Severity(): nat {
      match this
      case VeryShortCommute => 0
      case ReasonableCommute => 1
      case TypicalCommute => 2
      case LongCommute => 3
    }
    function Text(): string {
      match this
      case VeryShortCommute => "Excellent - Very short commute"
      case ReasonableCommute => "Good - Reasonable commute time"
      case TypicalCommute => "Average - Typical commute duration"
      case LongCommute => "Long - Extended commute time"
    }
  }

  const CommuteCuts: seq<real> := [23.0, 27.0, 32.0]

  function InterpretCommute(time: real): (r: Commute)
    ensures r.Severity() == Exceeded(time, CommuteCuts)
  {
    var r :=
      if time <= 23.0 then VeryShortCommute
      else if time <= 27.0 then ReasonableCommute
      else if time <= 32.0 then TypicalCommute
      else LongCommute;
    ExceededBetween(time, CommuteCuts, r.Severity());
    r
  }

  lemma InterpretCommuteMonotone(a: real, b: real)
    requires a <= b
    ensures InterpretCommute(a).Severity() <= InterpretCommute(b).Severity()
  {
    ExceededMonotone(a, b, CommuteCuts);
  }

  lemma InterpretCommuteBoundaries()
    ensures InterpretCommute(23.0) == VeryShortCommute
    ensures InterpretCommute(27.0) == ReasonableCommute
    ensures InterpretCommute(32.0) == TypicalCommute
  {
    ExceededAtCutPoint(CommuteCuts, 0);
    ExceededAtCutPoint(CommuteCuts, 1);
    ExceededAtCutPoint(CommuteCuts, 2);
  }

  datatype Safety = VerySafe | Safe | ModeratelySafe | HigherCrime {
    function Severity(): nat {
      match this
      case VerySafe => 0
      case Safe => 1
      case ModeratelySafe => 2
      case HigherCrime => 3
    }
    function Text(): string {
      match this
      case VerySafe => "Very Safe - Low crime area"
      case Safe => "Safe - Below average crime"
      case ModeratelySafe => "Moderately Safe - Average crime levels"
      case HigherCrime => "Higher Crime - Above average crime rates"
    }
  }

  const CrimeCuts: seq<real> := [7.0, 12.0, 18.0]

  function InterpretCrime(rate: real): (r: Safety)
    ensures r.Severity() == Exceeded(rate, CrimeCuts)
  {
    var r :=
      if rate <= 7.0 then VerySafe
      else if rate <= 12.0 then Safe
      else if rate <= 18.0 then ModeratelySafe
      else HigherCrime;
    ExceededBetween(rate, CrimeCuts, r.Severity());
    r
  }

  lemma InterpretCrimeMonotone(a: real, b: real)
    requires a <= b
    ensures InterpretCrime(a).Severity() <= InterpretCrime(b).Severity()
  {
    ExceededMonotone(a, b, CrimeCuts);
  }

  lemma InterpretCrimeBoundaries()
    ensures InterpretCrime(7.0) == VerySafe
    ensures InterpretCrime(12.0) == Safe
    ensures InterpretCrime(18.0) == ModeratelySafe
  {
    ExceededAtCutPoint(CrimeCuts, 0);
    ExceededAtCutPoint(CrimeCuts, 1);
    ExceededAtCutPoint(CrimeCuts, 2);
  }
}
