# Livability dashboard scoring core, in Dafny

This project models the computational core of a Streamlit dashboard. The dashboard rates the zip codes of Middlesex County, MA on a 0-100 livability scale. Everything else in `dashboard.py` is rendering and is not modelled. The core has four parts, one Dafny module each:

- **Scoring** (`scoring.dfy`): `calculate_scores`. Five raw metric columns are min-max normalised to 0-100 over the whole table. Crime rate, unemployment rate, housing burden and transportation index are reversed (`100 - ...`), because for them a lower raw value is better. The education index is not reversed. A fixed-weight composite `livability_score` (0.25, 0.25, 0.20, 0.20, 0.10) is then added to every row.
  - A row is a `Region` record of `real` fields. The table is a `seq<Region>`.
  - `ScoreTable` is the specification: it gives the scored table.
  - `CalculateScores` is the imperative version. It scans each column for its minimum and maximum, then fills the score columns row by row. It is proved to return exactly `ScoreTable`.
- **Ladders / Interpret** (`interpret.dfy`): the seven `interpret_*` if/elif chains and the map-marker colour chain.
  - Each chain is proved equal to a reference definition: its tier is the number of ascending cut points the value has reached (`>=`, for higher-is-better ladders) or exceeded (`<=` boundaries, for lower-is-better ladders).
  - Monotonicity and the boundary rule are proved once, generically, and then applied to each ladder.
- **Ranking** (`ranking.dfy`): `get_percentile`, the rank expression `(col > x).sum() + 1`, and the "better than" percentage.
  - The percentile is modelled as the floor of an exact real, which is what `int(count / len * 100)` computes on non-negative values. It is proved equal to the integer quotient `100 * count / len`.
- **Selector** (`selector.dfy`): the option labels `f"{zip} - {city}"`, the parse `split(" - ")[0]`, and the lookup of the chosen zip code with its "not found" stop.
  - The parse round-trips for every digit-only zip code.
  - In general it needs the zip code to contain no `" - "` and not to end in `" -"`. A lemma exhibits the zip code `"1 -"`, which parses back as `"1"`.

All arithmetic is exact (`real`), not IEEE floating point.

The code has no fallback for a constant column: it divides by `max - min` unguarded (dashboard.py:379-388). `NonDegenerate` requires every column to have two distinct values.

Pandas' `df.copy()` becomes value semantics. The input `seq` cannot be changed, and `ScoreTable` keeps every row, in order, with its raw columns untouched.

## Model

| member | source | states |
|---|---|---|
| `Scoring.Min` | dashboard.py:379-388 | the column minimum is an entry of the column and no entry is below it |
| `Scoring.Max` | dashboard.py:379-388 | the column maximum is an entry of the column and no entry is above it |
| `Scoring.MinMax` | dashboard.py:379-388 | one pass over a column yields exactly its minimum and its maximum |
| `Scoring.ComputeColumnRange` | dashboard.py:379-388 | the range computed for a metric is the (min, max) of that metric's column |
| `Scoring.TableRanges` | dashboard.py:379-388 | defines each metric's range as its column's (min, max); when no column is constant every range has min < max, so the divisions are defined |
| `Scoring.Scale` | dashboard.py:379-388 | the min-max score times the column's spread is 100 times the distance of the value from the max on a reversed metric, and from the min otherwise |
| `Scoring.ScaleBounds` | dashboard.py:379-388 | a value between the column min and max scales into [0, 100], reversed or not |
| `Scoring.ScaleEndpoints` | dashboard.py:379-388 | the column min maps to 100 and the max to 0 on a reversed metric; min to 0 and max to 100 otherwise |
| `Scoring.ScaleMonotone` | dashboard.py:379-388 | a larger raw value never scores higher on a reversed metric and never lower on a direct one |
| `Scoring.Livability` | dashboard.py:390-399 | the composite of five sub-scores in [0, 100] is in [0, 100]; five equal sub-scores give that same value (weights sum to 1) |
| `Scoring.WeightsSumToOne` | dashboard.py:390-391 | the five weights sum to exactly 1 |
| `Scoring.LivabilityMonotone` | dashboard.py:393-399 | raising any sub-score never lowers the composite |
| `Scoring.LivabilityExample` | dashboard.py:390-399 | sub-scores 90, 80, 70, 60, 50 give composite 73.5 |
| `Scoring.ScoreRegion` | dashboard.py:379-399 | defines a scored row: it keeps its raw record, its sub-score for each metric is that metric's raw value scaled over the column range (reversed except for education), and its livability is the weighted composite of its five sub-scores |
| `Scoring.ScoreTable` | dashboard.py:376-401 | the scored table has the same rows in the same order with their raw columns unchanged |
| `Scoring.FillScores` | dashboard.py:379-399 | every row of the output is the corresponding input row with its score columns |
| `Scoring.CalculateScores` | dashboard.py:376-401 | the method computes exactly the scored table of the input |
| `Scoring.RawWithinRange` | dashboard.py:379-388 | every row's raw value lies between its column's min and max |
| `Scoring.ScoresInRange` | dashboard.py:379-399 | every sub-score and the composite of every row lie in [0, 100] |
| `Scoring.ScoresAtColumnExtremes` | dashboard.py:379-388 | the row at a column's min scores 100 on crime, jobs, housing and transportation and 0 on education; the row at the max scores the reverse |
| `Scoring.ExtremeScoresAttained` | dashboard.py:379-388 | in every column some row scores exactly 100 and some row exactly 0 |
| `Scoring.ScoreMonotoneInColumn` | dashboard.py:379-388 | within a column a larger raw value never gives a larger reversed sub-score, nor a smaller education sub-score |
| `Ladders.ReachedBetween` | dashboard.py:406-444 | a value in [t(k-1), t(k)) of ascending cut points has reached exactly k of them |
| `Ladders.ExceededBetween` | dashboard.py:447-488 | a value in (t(k-1), t(k)] of ascending cut points has exceeded exactly k of them |
| `Ladders.ReachedAtCutPoint` | dashboard.py:406-444 | with `>=` tests, a value exactly on a cut point falls in the higher tier |
| `Ladders.ExceededAtCutPoint` | dashboard.py:447-488 | with `<=` tests, a value exactly on a cut point falls in the better (lower-severity) tier |
| `Ladders.ReachedMonotone` | dashboard.py:406-444 | a larger value never reaches fewer cut points |
| `Ladders.ExceededMonotone` | dashboard.py:447-488 | a larger value never exceeds fewer cut points |
| `Interpret.InterpretScore` | dashboard.py:406-414 | the rating's tier is the number of cut points 50, 65, 80 the score reaches |
| `Interpret.InterpretScoreMonotone` | dashboard.py:406-414 | a higher score never gets a worse rating |
| `Interpret.InterpretScoreBoundaries` | dashboard.py:406-414 | 80, 65 and 50 are rated Excellent, Good and Average |
| `Interpret.MarkerBand` | dashboard.py:877-884 | the marker band's tier is the number of cut points 45, 60, 75 the score reaches |
| `Interpret.MarkerBandMonotone` | dashboard.py:877-884 | a higher score never gets a worse marker colour |
| `Interpret.MarkerBandBoundaries` | dashboard.py:877-884 | 75, 60 and 45 get the green, blue and amber markers |
| `Interpret.MarkerNeverBelowCard` | dashboard.py:877-884 | a marker is never coloured worse than the card rates the same score, and it is one band better on [75, 80) |
| `Interpret.InterpretIncome` | dashboard.py:421-431 | the income level is the number of cut points 50000, 75000, 100000, 150000 reached |
| `Interpret.InterpretIncomeMonotone` | dashboard.py:421-431 | a higher income never gets a lower level |
| `Interpret.InterpretIncomeBoundaries` | dashboard.py:421-431 | each cut point is classed in the tier it opens |
| `Interpret.InterpretEducation` | dashboard.py:434-444 | the education level is the number of cut points 30, 45, 60, 75 reached |
| `Interpret.InterpretEducationMonotone` | dashboard.py:434-444 | a higher share of graduates never gets a lower level |
| `Interpret.InterpretEducationBoundaries` | dashboard.py:434-444 | each cut point is classed in the tier it opens |
| `Interpret.InterpretUnemployment` | dashboard.py:447-455 | the job-market severity is the number of cut points 2.5, 4.0, 6.0 exceeded |
| `Interpret.InterpretUnemploymentMonotone` | dashboard.py:447-455 | a higher unemployment rate never gets a better label |
| `Interpret.InterpretUnemploymentBoundaries` | dashboard.py:447-455 | 2.5, 4.0 and 6.0 get the better of the two labels around them |
| `Interpret.InterpretHousing` | dashboard.py:458-466 | the affordability severity is the number of cut points 28, 32, 38 exceeded |
| `Interpret.InterpretHousingMonotone` | dashboard.py:458-466 | a higher housing burden never gets a better label |
| `Interpret.InterpretHousingBoundaries` | dashboard.py:458-466 | 28, 32 and 38 get the better of the two labels around them |
| `Interpret.InterpretCommute` | dashboard.py:469-477 | the commute severity is the number of cut points 23, 27, 32 exceeded |
| `Interpret.InterpretCommuteMonotone` | dashboard.py:469-477 | a longer commute never gets a better label |
| `Interpret.InterpretCommuteBoundaries` | dashboard.py:469-477 | 23, 27 and 32 get the better of the two labels around them |
| `Interpret.InterpretCrime` | dashboard.py:480-488 | the safety severity is the number of cut points 7, 12, 18 exceeded |
| `Interpret.InterpretCrimeMonotone` | dashboard.py:480-488 | a higher crime rate never gets a better label |
| `Interpret.InterpretCrimeBoundaries` | dashboard.py:480-488 | 7, 12 and 18 get the better of the two labels around them |
| `Ranking.CountBelow` | dashboard.py:417-418 | the number of entries strictly below v is at most the length, and equals it exactly when every entry is below v |
| `Ranking.CountAbove` | dashboard.py:615-616 | the number of entries strictly above v is at most the length, and equals it exactly when every entry is above v |
| `Ranking.CountPartition` | dashboard.py:417-418 | every entry of a column is below, equal to or above a value, so the three counts add up to its length |
| `Ranking.CountBelowZero` | dashboard.py:417-418 | no entry is below v exactly when v is at or below every entry |
| `Ranking.CountAboveZero` | dashboard.py:615-616 | no entry is above v exactly when v is at or above every entry |
| `Ranking.Percentile` | dashboard.py:417-418 | the truncated percentage of entries strictly below v equals the integer quotient 100 * count / length |
| `Ranking.TruncatedShare` | dashboard.py:418 | truncating the exact share `c / n * 100` gives the integer quotient of 100 * c by n |
| `Ranking.PercentileBounds` | dashboard.py:417-418 | the percentile lies in [0, 100] |
| `Ranking.PercentileOfMinimum` | dashboard.py:417-418 | a value at or below the column minimum is at percentile 0 |
| `Ranking.PercentileAboveAll` | dashboard.py:417-418 | a value above every entry is at percentile 100 |
| `Ranking.PercentileOfMemberBelowHundred` | dashboard.py:417-418 | a value that occurs in the column is below percentile 100 |
| `Ranking.PercentileMonotone` | dashboard.py:417-418 | the percentile never decreases as the value rises |
| `Ranking.Rank` | dashboard.py:615-616 | a rank is at least 1 |
| `Ranking.RankBounds` | dashboard.py:615-616 | the rank of a row of the table lies in [1, number of rows] |
| `Ranking.RankOneIffMaximum` | dashboard.py:606 | a score has rank 1 exactly when no score in the column is higher |
| `Ranking.RankMonotone` | dashboard.py:1101 | a higher score never has a worse rank, so tied scores share a rank |
| `Ranking.RankStrict` | dashboard.py:1101 | a strictly higher score of the column has a strictly better rank |
| `Ranking.BetterThanPct` | dashboard.py:619 | for a rank in [1, n] the "better than" share lies in [0, 100) |
| `Ranking.BetterThanCountsRowsNotAbove` | dashboard.py:615-619 | "better than" is the share of other rows not strictly above; without ties it is the exact share of rows below, which `get_percentile` truncates |
| `Selector.ZipLabel` | dashboard.py:544-545 | a label is the zip code, then the separator " - " at the zip code's length, then the city |
| `Selector.FirstField` | dashboard.py:555 | the parsed zip is a prefix of the option that contains no separator and ends at the first separator or at the end of the option |
| `Selector.SeparatorStartingInZip` | dashboard.py:544-555 | a separator of a label that starts inside the zip code lies inside it, or the zip code ends in " -" |
| `Selector.LabelRoundTrip` | dashboard.py:544-555 | parsing a label gives back its zip code when the zip code has no " - " and does not end in " -" |
| `Selector.LabelRoundTripFailsOnSpaceDash` | dashboard.py:544-555 | the zip code "1 -" has no separator, yet its label parses back as "1" |
| `Selector.DigitLabelRoundTrip` | dashboard.py:544-555 | every digit-only zip code is recovered from its label |
| `Selector.FindZip` | dashboard.py:560-566 | the lookup returns the first row with the zip code, and none exactly when no row has it |
| `Selector.SelectRegion` | dashboard.py:555-566 | the selection is the first row of the table with the parsed zip code, and "not found" is returned exactly when no row has it |
| `Selector.ZipOptions` | dashboard.py:544-545 | defines the options: one per row, in row order, each that row's label |
| `Selector.SelectingAnOptionFindsItsRow` | dashboard.py:524-566 | the options are built from any list of rows of the table (the city-filtered, re-sorted copy); with unique zip codes, choosing an offered row's option selects that very row from the whole table when its zip code is digits, so the "not found" stop never fires |

## Left out

- CSS, page layout, every `st.*` widget and markdown call, the tabs, metric cards and explanatory text (dashboard.py:15-358 and the rendering code throughout): user interface, with no computation to state.
- The CSV load, `@st.cache_data`, the missing-file message and `st.stop()` (dashboard.py:363-371): I/O and framework control flow. The model starts from the loaded table.
- Plotly and Folium chart and map construction (dashboard.py:803-859, 866-929, 991-1012): calls into rendering libraries. The only logic in them, the marker colour chain, is modelled as `Interpret.MarkerBand`. The selected-marker highlight is left out.
- The nearby-zip Euclidean distance with `**0.5` and `nsmallest` (dashboard.py:936-941): floating-point square-root numerics.
- Number formatting (`:.1f`, thousands separators, `.round(1)`) and the sorted and `nlargest`/`nsmallest` display tables (dashboard.py:1050-1078): presentation only.
- The city filter and the sort by livability that choose and order the selector's options (dashboard.py:515-541): they decide which labels are offered and in what order. `Selector.ZipOptions` labels whatever rows it is given.
- The county average, `idxmax` best zip and population total in the sidebar (dashboard.py:588-591): display aggregates.
- The inline thresholds inside the card texts (for example `crime_score >= 70`, `>= 65` in dashboard.py:686-692) and the `100 - percentile` display flips: presentation wording around the modelled ladders and percentile.
- IEEE floating point: all arithmetic is exact `real`. For example, the source may compute 29/100*100 as 28.999999999999996 and truncate it to 28, where the model gives 29.
- Zero-variance columns: the source defines no fallback and divides by zero. The model requires `max > min` for every column instead of inventing a value.
- `Ranking.Rank`: its own contract says only that a rank is at least 1, because it counts any value against any column. Its bounds and order properties are in `RankBounds`, `RankOneIffMaximum`, `RankMonotone` and `RankStrict`.
