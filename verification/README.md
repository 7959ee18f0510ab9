# District risk scoring and aggregation, modelled in Dafny

This project models the core of an Aadhaar lifecycle risk dashboard. The
dashboard scores Indian districts on three sub-indices, combines them into
the Aadhaar Lifecycle Health Score (ALHS), raises early-warning flags, buckets
each district into a risk tier, and serves read-only aggregates of the
resulting table. The model covers three parts of that core.

- **The sample generator** (`data/sample_generator.py`), in module
  `Generator`. It covers:
  - clipping of the Enrolment Health (EHI), Demographic Stability (DSI) and
    Biometric Compliance (BCI) indices to 0..100;
  - the 0.3/0.3/0.4 weighted composite score;
  - the four threshold-gated flags and their count;
  - the zero-padded `DIS_nnnn` and `District_Xnnn` identifiers;
  - the right-closed `pd.cut` bucketing into Low / Medium / High / Critical.

  Every random draw is a field of a `Draws` record passed in by the caller.
- **The analytics service** (`backend/api/main.py`), in module `Analytics`.
  It covers:
  - the national summary;
  - the filtered, ALHS-ordered district listing;
  - lookup by identifier (404 when absent);
  - the per-state rollup;
  - the top-N ranking (422 outside 1..50);
  - the flag summary;
  - the risk distribution.
- **The dashboard service** (`backend/main.py`), in modules `Dashboard` and
  `Normalize`. It covers:
  - column selection and renaming;
  - flag coercion from text;
  - min-max normalisation of two score columns and inverted normalisation of
    two more;
  - the per-state summary, dataset and state-list views.

Shared building blocks sit in separate modules:

- `Seqs`: pandas-style counting, filtering, summing, group-by, a stable
  descending sort, `head`, and `nlargest`.
- `LexOrder`: Python's string order and `sorted(set(...))`.
- `PyNum`: `int()` truncation toward zero.
- `Wrappers`: `Option` and `Result`.

Conventions used throughout:

- A pandas NaN (the mean of no rows, a score outside every bin) is `None`.
- An HTTP error is an `Err` of `Analytics.ApiError`, whose `Status()` is the
  HTTP code.

The district listing of the analytics service (`get_districts`) treats a
falsy query parameter (`None`, `""`, `0`, `0.0`) as absent, and the model does
too. A negative `limit` there is passed to pandas `head`, which then drops
that many rows from the end; `Seqs.Head` models this. The other views differ:
the dashboard filters by state unless the state is exactly "All India" (an
empty state selects no rows), and the top-N view rejects any limit outside
1..50, including 0, with 422.

The risk label is `pd.cut` of the score over the right-closed bins
(0, 40], (40, 60], (60, 75], (75, 100]. A score of exactly 0 falls in no bin
and gets no label; such a row is counted in no tier of the summary and under
no label of the distribution. `Analytics.ZeroScoreUnlabelled` exhibits a
district whose indices all clip to zero. The model buckets the unrounded
score, while the source buckets the score rounded to two decimals (see
"## Left out").

## Model

| member | source | states |
|---|---|---|
| Generator.Clip | data/sample_generator.py:30-39 | `np.clip(x, 0, 100)` lands in [0, 100] and is the point of that interval nearest to `x` |
| Generator.ClipMonotone | data/sample_generator.py:31 | clipping keeps the order of its inputs and leaves in-range values unchanged |
| Generator.Alhs | data/sample_generator.py:42 | the composite of the three sub-indices lies between the smallest and the largest of them |
| Generator.AlhsMonotone | data/sample_generator.py:42 | raising any sub-index never lowers the composite score |
| Generator.ScoresOf | data/sample_generator.py:27-42 | EHI is the clipped base risk plus noise, DSI the clipped 0.7·EHI plus noise, BCI the clipped 0.4·EHI + 0.4·DSI plus noise, and ALHS their 0.3/0.3/0.4 composite; all four lie on the 0..100 scale, ALHS between the other three |
| Generator.ScoresMonotone | data/sample_generator.py:30-42 | with the same noise, a higher base risk never lowers EHI, DSI, BCI or ALHS |
| Generator.EvalFlags | data/sample_generator.py:44-48 | a flag is raised only above its metric's threshold (BCI 55, ALHS 50, DSI 60, EHI 65), and above it exactly when its own draw exceeds its cut (0.6, 0.65, 0.7, 0.65) |
| Generator.FlagsCount | data/sample_generator.py:50-55 | the flag count is the number of raised flags, at most 4, and 0 exactly when no flag is raised |
| Generator.ZeroPad | data/sample_generator.py:61 | `{i:04d}` has the width or the digit count of `i`, whichever is larger, and only digits |
| Generator.ZeroPadRoundTrip | data/sample_generator.py:61 | reading a zero-padded number back gives the number |
| Generator.DistrictId | data/sample_generator.py:61 | identifiers start with `DIS_` and have 8 characters below index 10000 |
| Generator.DistrictIdInjective | data/sample_generator.py:61 | two indices with the same identifier are equal |
| Generator.DistrictName | data/sample_generator.py:62 | names start with `District_` followed by a capital letter |
| Generator.DistrictNameInjective | data/sample_generator.py:62 | two indices with the same name are equal |
| Generator.Bucket | data/sample_generator.py:80-84 | a score gets a tier exactly when it lies in (0, 100], and the tier's bin (Bins[k], Bins[k+1]] contains it |
| Generator.BucketMonotone | data/sample_generator.py:80-84 | a larger score never falls in a lower tier |
| Generator.TierDistinct | data/sample_generator.py:83 | tiers are told apart by rank and by label |
| Generator.LabelsOfBins | data/sample_generator.py:80-84 | a score is bucketed to a tier exactly when it lies in that tier's bin, and no two tiers share a label |
| Generator.CategoryLabel | data/sample_generator.py:80-84 | a label is written exactly for scores in (0, 100]; it is `Low` exactly on (0, 40], `Medium` on (40, 60], `High` on (60, 75] and `Critical` on (75, 100] |
| Generator.ClassifyExample | data/sample_generator.py:82-83 | 10, 40 are Low; 55, 60 Medium; 75 High; 80, 100 Critical; 0 gets no tier |
| Generator.GenerateDistrict | data/sample_generator.py:25-75 | a generated row is well formed (0/1 flags, flag count their sum, scores in range, population non-negative); it carries the identifier and name of its index, the chosen state, the truncated population draw, the four scores of its draws, each flag raised exactly when that flag's threshold-and-draw condition holds, today's date, and the bucket of its score as label |
| Generator.GenerateTable | data/sample_generator.py:10-86 | one row per draw, row `i` being the district generated from index `i` and the `i`-th draws, so identifiers are numbered from 0 and pairwise distinct and each label is the bucket of its row's score |
| PyNum.Trunc | data/sample_generator.py:58 | `int(x)` truncates toward zero: the result has the sign of `x` and lies less than 1 from it in magnitude |
| Normalize.Scale | backend/main.py:60 | `(x - min) / (max - min)` is the fraction of the way from min to max at which `x` lies; it lies in [0, 1], is 0 exactly at the minimum and 1 exactly at the maximum |
| Normalize.ScaleMonotone | backend/main.py:60 | scaling keeps order, strictly |
| Normalize.Normalize | backend/main.py:58-60 | every normalised value is in [0, 1]; a zero-variance column becomes all zeros; otherwise each value is the fraction of the way from the minimum to the maximum at which the raw value lies (`r * (max - min) == x - min`), so exactly the minima map to 0 and the maxima to 1 |
| Normalize.ScaleAll | backend/main.py:60 | scaling a column by one range puts every value in [0, 1] at its fraction of the range, 0 exactly at the bottom and 1 exactly at the top |
| Normalize.NormalizeMonotone | backend/main.py:58-60 | normalisation preserves the order of values, strictly unless the column is constant |
| Normalize.NormalizeIdempotent | backend/main.py:58-60 | normalising a normalised column changes nothing |
| Normalize.Inverted | backend/main.py:66-69 | `1 - normalize(col)` lies in [0, 1], is all ones for a constant column, and complements the normalised value |
| Normalize.InvertedAntitone | backend/main.py:66-69 | the inverted score reverses the order of the raw values |
| Dashboard.SelectColumns | backend/main.py:48-49 | the kept columns are the new names of exactly the mapped source columns present, in mapping order, without duplicates when the mapping has none |
| Dashboard.SelectAllColumns | backend/main.py:48-49 | with every source column present, every mapped column is kept |
| Dashboard.MappingSelectsDistinct | backend/main.py:29-49 | the mapping's twelve new names are distinct, so the kept columns never repeat a name |
| Dashboard.CoerceFlag | backend/main.py:50-56 | a flag cell becomes 0 or 1, and 1 exactly for the texts `True`, `1`, `1.0` |
| Dashboard.Clean | backend/main.py:50-69 | cleaning keeps every row's identity and coerced flags, keeps enrolment and pending-biometrics cells with 0 for a missing one, puts all four scores in [0, 1], normalises ALHS and EHI and invert-normalises DSI and BCI |
| Dashboard.CleanKeepsRanking | backend/main.py:58-69 | a higher raw intensity never gives a lower ALHS, and a higher raw friction never gives a higher DSI |
| Dashboard.Scope | backend/main.py:105-106 | "All India" keeps the table; a state keeps exactly that state's rows, as many as the table has, in table order |
| Dashboard.Summary | backend/main.py:91-120 | no data gives all zeros; otherwise the counts are of rows with ALHS > 0.7 and of rows in (0.4, 0.7], together at most the total; pending updates are the truncated sum of the pending-biometrics column; compliance is the mean BCI; health is one less the mean ALHS, which is also the mean of the per-row health `1 - alhs`; both averages are missing exactly for an empty state and lie in [0, 1] on a normalised table |
| Dashboard.SummaryAverages | backend/main.py:114-116 | for a non-empty scope, the mean per-row health is one less the mean ALHS, and on a normalised table both it and the mean BCI lie in [0, 1] |
| Dashboard.ScopeNormalized | backend/main.py:105-116 | a state's rows of a normalised table are normalised, so `1 - alhs` lies in [0, 1] |
| Dashboard.Dataset | backend/main.py:122-127 | no data gives no rows; otherwise all rows for "All India", or exactly the rows of the state, as many as the table has, in table order |
| Dashboard.States | backend/main.py:129-134 | the state list is strictly ascending and holds exactly the states of the table |
| Dashboard.StatesCanonical | backend/main.py:134 | any ascending, duplicate-free list of exactly those states is the state list |
| LexOrder.SortedDistinct | backend/main.py:134 | `sorted(set(xs))` is strictly ascending with the same members as `xs` |
| LexOrder.AscendingListingUnique | backend/main.py:134 | two strictly ascending lists with the same members are equal |
| Seqs.Filter | backend/api/main.py:147-155 | a boolean mask keeps exactly the rows satisfying it, as many as satisfy it, in table order |
| Seqs.FilterKey | backend/api/main.py:127 | `df[df[col] == k]` keeps exactly the rows whose key is `k`, and its length is their count |
| Seqs.Mean | backend/api/main.py:131 | a mean exists exactly when there is a row |
| Seqs.MeanComplement | backend/main.py:116 | one less the mean of a column is the mean of one less each value |
| Seqs.SumRComplement | backend/main.py:116 | summing one less each value gives the row count less the column sum |
| Seqs.MeanBounds | backend/main.py:114-116 | the mean of values in [lo, hi] lies in [lo, hi] |
| Seqs.CountDisjoint | backend/main.py:109-110 | two disjoint conditions together count at most every row |
| Seqs.Keys | backend/api/main.py:185 | the group keys are distinct and are exactly the keys that occur |
| Seqs.GroupSum | backend/api/main.py:185-190 | summing the per-group sums over distinct keys gives the sum over the rows with those keys |
| Seqs.SortDesc | backend/api/main.py:158 | the descending sort is a permutation and is ordered |
| Seqs.SortDescStable | backend/api/main.py:210 | the sort keeps rows with equal keys in table order, as `nlargest` does below the row count |
| Seqs.Head | backend/api/main.py:161-162 | `head(n)` is a prefix of `min(n, len)` rows, or of all but the last `-n` rows for a negative `n` |
| Seqs.Ranked | backend/api/main.py:158-162 | the kept rows are sorted, come from the input, and are all at least as large as any row left out; with no cut the result is a permutation; among equal keys the earliest rows are kept |
| Analytics.SummaryStatsOf | backend/api/main.py:125-134 | each tier count is the number of rows with that label, and the four counts add up to at most the total, exactly when every row is labelled; the average is the mean ALHS, missing exactly for an empty table; flag and population totals are column sums |
| Analytics.SummaryAverageIsScore | backend/api/main.py:131 | on well-formed rows the national average ALHS lies on the 0..100 scale |
| Analytics.TierCountBound | backend/api/main.py:126-130 | the four tier counts never exceed the number of districts and equal it when every label is one of the four |
| Analytics.GeneratedTiersCover | backend/api/main.py:126-130 | on a generated table whose scores are all positive, the tier counts add up to the number of districts |
| Analytics.ZeroScoreUnlabelled | data/sample_generator.py:80-84 | a district whose indices all clip to 0 scores 0, gets no label, and is counted in no tier |
| Analytics.Selected | backend/api/main.py:147-155 | the filtered rows are exactly the rows that match every given filter, as many as match, in table order |
| Analytics.Districts | backend/api/main.py:147-164 | the listing holds only matching rows, ordered by ALHS, largest first; its length follows `head` for a positive or negative limit; without a limit it is a permutation of the matches; no row left out scores above one kept |
| Analytics.DistrictById | backend/api/main.py:172-177 | the first row with the identifier, or NotFound (404) exactly when no row has it |
| Analytics.LookupFindsRow | backend/api/main.py:172-177 | with unique identifiers, looking up a row's identifier returns that row |
| Analytics.StateRow | backend/api/main.py:185-197 | a state's row counts its districts (at least one), its average times its count is its ALHS sum, its critical count is the number of its districts labelled Critical, and its flag and population totals are the sums over its districts |
| Analytics.CriticalCountIsCount | backend/api/main.py:195-196 | summing the Critical indicator over a state's rows counts the districts whose state and label are that state and Critical |
| Analytics.StateStatsOf | backend/api/main.py:185-202 | one row per state present, each the rollup of that state, ordered by average ALHS, largest first; counts add up to the number of districts, and flag and population totals to the table's |
| Analytics.RollupSums | backend/api/main.py:185-190 | group-by and sorting lose no district, flag or inhabitant |
| Analytics.RollupRows | backend/api/main.py:185-197 | the sorted rollup has exactly one row per state, each the rollup of that state |
| Analytics.TopN | backend/api/main.py:210 | `nlargest(n)` returns `min(n, len)` rows, sorted, none below a row left out, with ties resolved in favour of earlier rows (which pandas guarantees for `n < len`) |
| Analytics.TopRiskDistricts | backend/api/main.py:205-218 | a limit outside 1..50 is rejected with 422; otherwise the top-`limit` entries and their number |
| Analytics.FlagSummaryOf | backend/api/main.py:226-233 | the flag totals are column sums, the multi-flag count is the number of rows with 2 or more flags, and on well-formed rows each total counts the raising districts and the four add up to the total |
| Analytics.FlagColumnsAreCounts | backend/api/main.py:227-230 | on well-formed rows a flag column's sum is the number of districts raising it |
| Analytics.FlagTotalsAgree | backend/api/main.py:227-231 | on well-formed rows the flag-count total is the sum of the four flag totals |
| Analytics.LabelCounts | backend/api/main.py:241 | `value_counts` has a positive count for exactly the labels that occur |
| Analytics.Percentages | backend/api/main.py:245-248 | each percentage times the row count is the label's count times 100 |
| Analytics.RiskDistribution | backend/api/main.py:241-249 | counts and percentages cover exactly the labels that occur, with consistent values; an empty table gives two empty maps |
| Analytics.DistributionCounts | backend/api/main.py:241 | the label counts add up to the number of labelled rows |
| Analytics.DistributionPercentages | backend/api/main.py:245-248 | when every row is labelled, the percentages add up to exactly 100 |

## Left out

- Rounding (`round(x, 2)`, `.round(2)`, `round(..., 3/4)`) is not modelled: every score, average and percentage is the unrounded real. As a result `Analytics.StateStatsOf` orders the rows by the unrounded average, while the source sorts by the rounded one, so rows whose averages round to the same value may be ordered differently.
- Floating point is modelled as exact reals; NaN appears only as `None` (the mean of no rows, a score outside every bin).
- `np.random` (beta, normal, uniform, log-normal draws and `np.random.choice`) and the seed are replaced by the `Draws` parameter; the distributions themselves are not modelled.
- The current date (`pd.Timestamp.now()`) is a parameter `today`.
- CSV reading and writing, the data cache and its refresh, FastAPI routing, CORS, Pydantic response models, startup hooks and `print` output are not modelled.
- The correlation-matrix endpoint, the time-series generator and the remaining endpoints of `backend/api/main.py` are not part of this model.
- The second copy of the analytics service, which repeats the first, is not modelled separately.
- `Generator.CategoryLabel`: the label is the bin of the unrounded score, while the source cuts the score after rounding it to two decimals. A score in (0, 0.005), such as EHI = DSI = 0 with BCI = 0.01 (score 0.004), rounds to 0 in the source and gets no label, but is labelled Low here; a score in (40, 40.005), such as 40.004, rounds to 40 and is Low in the source but Medium here, and likewise just above 60 and 75. `Analytics.GeneratedTiersCover` holds for the unrounded scores only.
- `Analytics.TopN`: for a limit at least the number of rows, pandas `nlargest` falls back to an unstable sort, so the source leaves the order among equal scores unspecified there; the model keeps table order in every case.
- `Analytics.Districts`: the order of rows with equal ALHS is not stated, because `sort_values` is not a stable sort.
- `Dashboard.Clean`: `fillna(0)` on the text columns (a missing district or state name becoming 0) is not modelled; district and state are always present in `RawRow`.
- `Dashboard.Clean`: every mapped column is taken as present; an absent column is simply skipped by the source and would raise `KeyError` in the views, which is not modelled.
- `Dashboard.Summary`: the catch-all exception path of `load_data` is represented only by its result, an empty table (`HasData` is false).
- The integer widths of pandas columns are not modelled; counts and sums are unbounded integers.
