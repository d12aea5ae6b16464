# Video performance dashboard: the scoring pipeline

This project models the data pipeline behind the Streamlit script `app.py`. That script loads a
list of scraped short-video records and turns each into a flat row. It gives every row a
weighted "success score" and lets the user filter and rank the rows. It also shows the top
twenty and lists all descriptions.

The model has five modules.

- **Records** (`records.dfy`) covers the DataFrame comprehension.
  - Each parsed JSON object (`map<string, Value>`) becomes a `Video`.
  - The metrics follow Python's own rules:
    - `isinstance(v, (int, float))`, with `bool` counted as an `int`;
    - `str.isdigit()`;
    - `int()`, which truncates toward zero.
  - The exceptions the comprehension can raise are `Failure` values: a null, boolean,
    numeric or object title, a `statsV2` that is not an object, and a `playCount` that
    `int()` rejects.
  - An empty list builds a frame without columns. It fails later, at the first access to a
    metric column, and `Records.BuildTable` reports that as a `Failure` too.
- **Scoring** (`scoring.dfy`, with real-number facts in `arith.dfy`) covers both score modes.
  - Scores and weights are exact reals.
  - Normalized mode guards every division by the column maximum; raw mode uses the fixed scale
    constants.
  - It proves the bounds, the guard, the "perfect score" condition and monotonicity.
- **Ranking** (`ranking.dfy`) covers the filters and the ordering.
  - The three conditional filters are reassigned step by step in a method.
  - The descending sort is a verified insertion sort.
  - The top-20 view is the first twenty rows of the sorted table.
- **Display** (`display.dfy`) covers the colour band and the numbered description listing,
  which is built by a loop.
- **Text** (`text.dfy`) holds the string helpers: ASCII digits and decimal rendering, ASCII
  lower case and substring search.

The model follows what `app.py` does, even where that is not what a reader of its comments or
its labels would expect:

- A native negative count (`"likes": -5`) is kept as -5. Only the textual form `"-5"` becomes 0.
- The comprehension does raise on some malformed objects, so those objects fail rather than
  degrading to zero. There are three cases:
  - a `null`, boolean, numeric or object title (`None[:80]`, `{}[:80]`);
  - a `statsV2` that is not an object;
  - a `playCount` that `int()` cannot read.
- An empty input fails. Its frame has no columns, so the first access to `df["likes"]` raises.
- The sort is pandas' default quicksort, which is not stable. The ranking therefore promises a
  descending permutation and no particular order among ties. `Ranking.SortedScoresAgree` shows
  that the score column is the same whatever order ties get.
- Nothing guards against a zero weight sum. The sliders make it at least 0.4
  (`Scoring.SliderWeightsArePositive`). The score functions therefore require only a non-zero
  weight sum, and the bound lemmas require a positive one.

## Model

| member | source | states |
|---|---|---|
| Records.Lookup | app.py:44-49 | `dict.get(key)` is `Some` exactly when the key is present, and then carries its value |
| Records.LookupOr | app.py:41-43 | `dict.get(key, default)` is the stored value when present, the default otherwise |
| Records.Trunc | app.py:44-47 | `int()` of a float truncates toward zero: within 1 of the input, same sign, never past it |
| Records.IntOf | app.py:44-49 | `int()` succeeds exactly on numbers and digit strings; ints are kept, `True` is 1 and `False` 0, a float gives its truncation toward zero (`Trunc`), a digit string gives its decimal value |
| Records.Metric | app.py:44-47 | a count is 0 unless the field holds a number or a digit string, and then it is exactly `int()` of that value; a string never gives a negative count; a negative count comes only from a native negative number |
| Records.Description | app.py:42 | a missing title gives ""; a string title gives its prefix of length min(80, length); any other title fails |
| Records.Views | app.py:49 | absent or null `statsV2` gives 0; an object gives `int(playCount)` with `playCount` defaulting to 0; any other `statsV2` fails |
| Records.CoerceRecord | app.py:40-50 | a record succeeds exactly when its title and `statsV2` are usable; every field is characterised (creator defaults to "Unbekannt", URL prefers `item_url` then `video_url` then ""); the title error is reported before the `statsV2` error |
| Records.CoerceAll | app.py:40-50 | the comprehension succeeds exactly when every object does, giving one row per object in order; otherwise the first failing object decides the error |
| Records.BuildTable | app.py:40-50 | an empty input fails with a missing-column error; otherwise the table is the comprehension |
| Records.MetricNonNegative | app.py:44-47 | a field that is not a native negative number gives a non-negative count |
| Records.CoercedCountsNonNegative | app.py:44-49 | a coerced row has non-negative counts when the object held no native negative numbers |
| Records.MetricOfDigitString | app.py:44-47 | the decimal rendering of n, and the native integer n, both coerce to n |
| Records.NegativeAsymmetry | app.py:44-47 | `-5` stays -5, `"-5"` becomes 0, `-2.7` becomes -2, `true` becomes 1, and null, a missing key and `""` become 0 |
| Records.ExampleCoercion | app.py:40-50 | a sample object with likes `"7"`, shares 3, bookmarks null and comments `"abc"` gives 7, 3, 0, 0 and the defaults |
| Text.DecimalString | app.py:321 | the rendering of a number is a non-empty digit string, one digit long exactly below 10, with no leading zero except for 0 |
| Text.DecimalRoundTrip | app.py:44-47 | reading back the rendering of n gives n |
| Text.DecimalStringOfValue | app.py:44-47 | a digit string without a leading zero is the rendering of its value |
| Text.ContainsIgnoreCase | app.py:116 | the search matches when the lower-cased term occurs at some position of the lower-cased description |
| Text.ExactMatchIgnoresCase | app.py:116 | a term found verbatim in a description is found by the case-insensitive search |
| Text.LongTermNeverMatches | app.py:116 | a term longer than the description never matches |
| Text.SearchIgnoresCase | app.py:116 | folding the case of the description or of the term does not change the search |
| Scoring.SliderWeightsArePositive | app.py:57-61 | slider weights are non-negative and sum to between 0.4 and 25 |
| Scoring.Norm | app.py:70-74 | the normalized value is 0 when the column maximum is not positive; it never exceeds 1; with a positive maximum it is 1 exactly for a row holding the maximum, and non-negative exactly for a non-negative count |
| Scoring.NormalizedScore | app.py:77-83 | the score times the weight sum is 100 times the weighted sum of the five normalized values |
| Scoring.RawScore | app.py:86-92 | the score times the weight sum is the sum of count times weight times scale constant over the five columns |
| Scoring.ColumnMax | app.py:70-74 | the column maximum bounds every row's count and is attained by some row |
| Scoring.NormGuard | app.py:70-74 | a column whose maximum is not positive normalizes to 0 in every row |
| Scoring.ZeroColumn | app.py:70-74 | a column of zeros normalizes to 0 in every row |
| Scoring.NormInUnitInterval | app.py:70-74 | with non-negative counts every normalized value lies in [0, 1] |
| Scoring.NormOneIff | app.py:70-74 | a normalized value is 1 exactly for a row holding a positive column maximum |
| Scoring.NormMonotone | app.py:70-74 | when the column maximum is positive, normalization keeps the order of the counts in both directions |
| Scoring.NormalizedScoreFormula | app.py:77-83 | the normalized score is the weighted sum of the five norms, times 100, divided by the weight sum |
| Scoring.RawScoreFormula | app.py:86-92 | the raw score is likes·wl + shares·ws·100 + bookmarks·wb·10 + comments·wc·10 + views·wv·0.01, divided by the weight sum |
| Scoring.NormalizedScoreAtMost100 | app.py:68-83 | with non-negative weights and a positive weight sum the normalized score is at most 100, whatever the sign of the counts |
| Scoring.NormalizedScoreNonNegative | app.py:68-83 | with non-negative counts, non-negative weights and a positive weight sum the normalized score is at least 0 |
| Scoring.NegativeCountScoresBelowZero | app.py:44-47 | the lower bound needs non-negative counts: with likes 10 and -5 and only likes weighted, the second row scores -50 |
| Scoring.PerfectScoreIff | app.py:68-83 | with non-negative weights and a positive weight sum, whatever the sign of the counts, the normalized score is exactly 100 when, and only when, the row holds the positive maximum of every column with a positive weight |
| Scoring.NormalizedTableBounds | app.py:68-83 | with non-negative counts, non-negative weights and a positive weight sum, every row of a normalized score table scores within [0, 100] |
| Scoring.NormalizedScoreMonotone | app.py:68-83 | a row at least as large as another in every column scores at least as high in normalized mode |
| Scoring.ExampleTwoRecords | app.py:68-83 | with likes 100 and 50 and only likes weighted, the norms are 1 and 0.5 and the scores 100 and 50 |
| Scoring.RawScoreOfZero | app.py:86-92 | a row with all counts 0 scores 0 in raw mode |
| Scoring.RawScoreMonotone | app.py:86-92 | with non-negative weights the raw score is non-decreasing in every count |
| Scoring.RawScoreNonNegative | app.py:86-92 | non-negative counts and weights give a non-negative raw score |
| Scoring.ScoreTable | app.py:68-92 | the score column has one entry per row, keeps the row, and holds that row's score in the chosen mode |
| Ranking.Keep | app.py:116-122 | boolean-mask selection keeps exactly the rows satisfying the mask and takes no row more often than the input holds it |
| Ranking.KeepConcat | app.py:116-122 | selection distributes over concatenation, so the surviving rows keep their relative order |
| Ranking.KeepKeep | app.py:113-122 | two successive selections equal one selection by both masks |
| Ranking.KeepAll | app.py:113-122 | a mask that holds for every row selects the whole table |
| Ranking.SearchPasses | app.py:115-116 | the search filter lets every row through when the term is empty, and otherwise exactly the rows whose description contains the term ignoring case |
| Ranking.CreatorPasses | app.py:118-119 | the creator filter lets every row through when no creator is chosen, and otherwise exactly the rows whose creator is chosen |
| Ranking.ScorePasses | app.py:121-122 | the score filter lets every row through when the minimum is not positive, and otherwise exactly the rows scoring at least the minimum |
| Ranking.Passes | app.py:113-122 | a row passes when it passes all three filters |
| Ranking.Filtered | app.py:113-122 | the filtered rows are exactly the table rows that pass every active filter |
| Ranking.FilterAndRank | app.py:113-125 | applying each set filter in turn and sorting gives a descending sequence that is a permutation of the filtered rows |
| Ranking.RankedMembership | app.py:113-125 | a row is ranked exactly when it is in the table and passes every active filter |
| Ranking.FiltersOffKeepAll | app.py:113-122 | with an empty search, no creators and a minimum of 0 every row survives |
| Ranking.RankedRowsMatch | app.py:115-122 | each active filter holds for every surviving row: the search matches, the creator is selected, the score is at least the minimum |
| Ranking.UnknownCreatorsLeaveNothing | app.py:118-119 | choosing only creators absent from the table leaves an empty result, not an error |
| Ranking.RaisingMinimumNarrows | app.py:110-122 | raising the minimum score, from 0 (filter off) or from any positive value, only removes rows |
| Ranking.Insert | app.py:125 | inserting into a descending sequence keeps it descending and adds exactly that row |
| Ranking.SortByScore | app.py:125 | the sort is descending by score and a permutation of its input |
| Ranking.SortedScoresAgree | app.py:125 | any two descending orderings of the same rows have the same score in every position |
| Ranking.TopVideos | app.py:213 | the top list has min(20, n) rows, is descending, comes from the table, and outscores every row left out |
| Ranking.SmallTableShownWhole | app.py:213 | a table of at most twenty rows is shown whole |
| Display.ScoreColor | app.py:170 | green exactly above 70, orange exactly in (40, 70], red exactly at or below 40 |
| Display.ColorMonotone | app.py:170 | a higher score never gets a colder colour |
| Display.RankedColorsOrdered | app.py:169-170 | down the ranked list the colours never go back from red to orange or from orange to green |
| Display.NumberedLine | app.py:321 | line i is the decimal rendering of i, then ". ", then the description |
| Display.DescriptionListing | app.py:319-321 | the loop builds one line `"i. desc\n"` per row of the table, numbered from 1, in row order |
| Display.SplitUnlines | app.py:319-321 | splitting the text of newline-free lines at newlines gives the lines back |
| Display.ListingLines | app.py:319-321 | when descriptions hold no newline, line k of the listing is entry k+1 with row k's description, and the text has one line and one newline per row |
| Display.NumberedLineReadsBack | app.py:321 | each line starts with the digits of its number, which read back as that number, followed by ". " and the description |

## Left out

- The Streamlit UI is presentation only: page set-up, widgets, tabs, tables, HTML cards and
  one-decimal rounding (app.py:8-17 and 95-206).
  - The slider ranges appear only as the `Scoring.SliderWeights` predicate.
  - The filter widgets appear only as the `Ranking.Filters` value.
  - The creator option list (`sorted(df['tiktok_user'].unique())`, app.py:106) is not modelled.
    Sorting it raises when the creators mix strings with null or numbers, so the script
    stops before the filters; `Ranking.FilterAndRank` ranks such a table all the same.
- File loading (app.py:23-34) is I/O. The model takes the parsed list of objects.
- The Gemini trend analysis (app.py:327-431) is a network call. Its session caching is UI state.
- The Plotly charts, the top-10 chart data and the correlation table (app.py:216-292) are
  floating-point statistics and rendering.
- Scores are exact reals. IEEE rounding, NaN and infinities are not modelled, and neither is
  `int()` raising on them.
- Counts are unbounded integers, not 64-bit pandas columns.
- Records.IntOf: reads only ASCII digit strings. Python's `int()` on a `playCount` also accepts
  a sign, surrounding white space, underscores and other Unicode decimal digits. The model
  rejects those as errors. Superscript digits pass `isdigit` but make `int()` raise; that is
  out of scope too.
- Records.Description: a JSON array title is sliced by Python into a list. The model treats it
  as an error like any other non-string title.
- Ranking.CreatorPasses: compares creators as JSON values. pandas stores the creator column
  with an inferred type, so a column mixing `1` and `1.0` becomes floats and `isin` treats the
  two as equal, while the model does not.
- Text.ContainsIgnoreCase: the search term is matched as plain text with ASCII case folding.
  pandas treats it as a regular expression with Unicode case folding.
- Ranking.SortByScore: promises a descending permutation, not pandas' particular order among
  equal scores, which its unstable quicksort leaves unspecified.
- Ranking.FilterAndRank: the positional index that `reset_index` renumbers is not modelled.
  Rows are values in a sequence.
