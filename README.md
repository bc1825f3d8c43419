# Product recommendation service: filter, score and rank

This project models the core of a small product-recommendation web service
(`backend/main.py`) and proves properties of that model. The service sells
cameras, lenses, drones, gimbals and action cameras. A request names a
category, a bag of criteria and a list of purposes. The service answers with
the matching products, best first, or with a "no match" message.

The request is handled in five stages, and each is a module here:

- **Catalog** (`catalog.dfy`): the load-time normalisation of each category's
  spec table. The Model column is stripped and lower-cased. Yes/No columns
  become 0/1 flags. Numeric columns are parsed, and a value that does not
  parse becomes 0. The inventory is deduplicated by model, keeping the first
  row. The two tables are inner-joined on the model. A missing colour becomes
  "black". The loops over the column lists and over the categories are
  methods, proved against the functions `Normalised`, `CategoryTable` and
  `Loaded`.
- **Filters** (`filters.dfy`, with `buckets.dfy` and `selection.dfy`): the
  category filter. Each `if '<key>' in criteria:` block of the source is a
  `Rule`. The criteria and the table's columns turn the rules into a `Plan`:
  the row selections to run, in source order, and the exception that ends
  the filter, if any. `Run` executes the plan on the table.
  - Selections fail the way pandas does: a missing column, or a string
    compared with a number.
  - The bucket dictionaries are written as in the source. `Buckets.Bucket`
    states each bucket independently as an interval with open or closed ends.
- **Scoring** (`scoring.dfy`): `calculate_scores`. The column labels are
  lower-cased. The effective purposes are collected: purposes that are valid
  for the category and name a numeric column, duplicates kept. Missing values
  in those columns become 0. The score is their mean, or 0 when there are
  none. Two methods mirror the source's loops and are proved against
  `Effective`, `FillColumns` and `Scored`.
- **Ranking** (`ranking.dfy`): the descending sort by score, and rounding to
  two decimals.
- **Service** (`service.dfy`): the `recommend` endpoint. It lower-cases the
  category and rejects unknown ones. It then filters, scores and sorts. An
  empty result gives the no-match message. Otherwise each row becomes a
  record with seven promoted fields and a `details` map, collected by a loop.

`values.dfy` holds the shared values: JSON criteria values, table cells
(number, text or NaN), rows as maps, and the exceptions the handler can
raise. `text.dfy` holds the string operations the source relies on: strip,
lower, capitalize, `int()` and decimal parsing.

Every exception the handler raises becomes one `Err` of the `Result` the
model returns. The source turns every exception into an HTTP 500, including
its own 400 for an unknown category (`backend/main.py:600-601`); the model
keeps the exception's kind instead.

The bucket boundaries are the comparisons the code makes. Where two labels
meet, the code decides which one gets the boundary value:

- Camera "Light" is `<= 400` and "Heavy" is `>= 600`.
- Drone speed "Slow" is `<= 36` and "Very Fast" is `>= 72`.
- Drone range "Short" is `<= 9` and "Long" is `>= 15`.
- Action-camera weight "Light" is `<= 100`.
- Action-camera battery "Below 100 minutes" is `<= 100` and "Above 150 minutes" is `>= 150`.

Scoring errors are not handled per row. The `except` around the mean sets
every row's score to 0 (`backend/main.py:545-547`). In the model no value
reaches that mean that could make it raise.

## Model

| member | source | states |
|---|---|---|
| Catalog.NormaliseSpecs | backend/main.py:171-197 | The model pass, then the Yes/No loop, then the numeric loop give exactly the normalised table. A table without a Model column raises KeyError. |
| Catalog.RewriteColumns | backend/main.py:181-183 | One column loop keeps the row count. It adds exactly the listed columns the table has. Each cell becomes the result of the passes over its column. |
| Catalog.LoadCategory | backend/main.py:171-209 | One iteration of the category loop yields `CategoryTable`: normalise, join with the deduplicated inventory, default the colour. |
| Catalog.LoadCatalog | backend/main.py:169-211 | The loop over categories stores each table under its name; the first exception aborts the load. |
| Catalog.LoadedMeaning | backend/main.py:169-211 | The load succeeds iff the inventory and every category's table can be built. The catalog then maps exactly the category names, each to its own table. |
| Catalog.GatherSucceeds | backend/main.py:169-211 | Storing the outcomes succeeds iff every outcome is a table. |
| Catalog.GatherContents | backend/main.py:211 | With distinct names, the stored catalog holds exactly the names, each with its table. |
| Catalog.GatherStops | backend/main.py:169-211 | Once one category fails, the whole load fails with that error. |
| Catalog.PrepareInventory | backend/main.py:52-54 | Preparation succeeds iff the inventory has Model and Colour columns. It keeps the columns, and every kept row has a text model. |
| Catalog.KeepModelled | backend/main.py:54 | A row is kept iff its model is not NaN. The kept rows keep their order: they are a subsequence of the input. |
| Catalog.CleanRow | backend/main.py:52-53 | The Model and Colour cells are stripped and lower-cased; every other cell is unchanged. |
| Catalog.InventoryPrepared | backend/main.py:52-54 | The prepared rows are, in order, the cleaned inventory rows whose model is text, and exactly those. |
| Catalog.PaddedModelMatches | backend/main.py:52-53 | A padded, capitalised model " Sony " and the model "sony" normalise to the same name. |
| Catalog.StockedModelJoins | backend/main.py:200-207 | A spec row whose normalised model is an inventory model yields a loaded row of that model. |
| Catalog.InventoryModelJoins | backend/main.py:200-207 | An inventory row whose model, stripped and lower-cased, equals a spec row's normalised model makes that model appear in the loaded table, whatever the padding and letter case on either side. |
| Catalog.FlagsAreBits | backend/main.py:181-183 | Every Yes/No column of a normalised table holds 0 or 1. |
| Catalog.FlagMeansYes | backend/main.py:183 | A text flag is 1 iff, stripped and lower-cased, it reads "yes"; otherwise it is 0. |
| Catalog.PaddedYesIsOne | backend/main.py:183 | " yes " is encoded as 1: blanks and letter case do not matter. |
| Catalog.NotYesIsZero | backend/main.py:183 | An unpadded text that cannot capitalise to "Yes" is encoded as 0. |
| Catalog.OtherTextIsNo | backend/main.py:183 | "Yes (partial)", "Tilt" and "20m" are all encoded as 0. |
| Catalog.NumericColumnsParsed | backend/main.py:194-197 | Every numeric column of a normalised table holds a number. |
| Catalog.NumberOrZeroReads | backend/main.py:196-197 | A number stays. A decimal string gives its value. Any other value gives 0. |
| Catalog.ModelNameIdempotent | backend/main.py:171 | Stripping and lower-casing a model name twice equals doing it once. |
| Catalog.NormalModel | backend/main.py:171 | A normalised model cell is the model stripped and lower-cased. |
| Catalog.DedupeKeepsFirst | backend/main.py:200 | A row survives deduplication iff no earlier row has its model. Survivors have pairwise distinct models. |
| Catalog.DedupeKeepsModels | backend/main.py:200 | Every model of the inventory survives deduplication. |
| Catalog.KeepFirstMembers | backend/main.py:200 | The deduplication fold keeps exactly the first row of each model not seen before. |
| Catalog.KeepFirstDistinct | backend/main.py:200 | Rows kept by the deduplication fold have pairwise distinct models, none of them seen before. |
| Catalog.Absent | backend/main.py:204 | Selecting the inventory columns finds nothing missing iff every listed field is a column. |
| Catalog.Merge | backend/main.py:202-207 | A joined row takes the inventory fields from the inventory row and every other column from the spec row. |
| Catalog.InnerJoin | backend/main.py:202-207 | A joined table has the spec columns followed by the inventory fields. |
| Catalog.JoinMembers | backend/main.py:202-207 | A row is in the join iff it merges a spec row with an inventory row of the same model. |
| Catalog.MatchesMembers | backend/main.py:202-207 | The rows joined to one spec row are exactly its merges with inventory rows of its model. |
| Catalog.MatchesAtMostOne | backend/main.py:200-207 | Against a deduplicated inventory, a spec row yields at most one joined row, and exactly one iff its model is in stock. |
| Catalog.JoinOnePerSpec | backend/main.py:200-207 | Joining with a deduplicated inventory never adds rows. Every spec row is kept when all models are in stock. |
| Catalog.DefaultColour | backend/main.py:209 | Defaulting the colour keeps the columns and the row count. |
| Catalog.CategoryRowSource | backend/main.py:171-209 | Every loaded row is a normalised spec row merged with a deduplicated inventory row of the same model, with the colour defaulted. |
| Catalog.CategoryRowsFromStock | backend/main.py:171-209 | Every loaded row's model is in stock. It carries the colour of that model's first inventory row, lower-cased or "black". |
| Catalog.CategoryNumeric | backend/main.py:194-209 | In a loaded table every numeric spec column holds numbers only. |
| Catalog.CategoryColumns | backend/main.py:202-207 | A loaded table has the spec's columns followed by the inventory fields. |
| Catalog.CameraHeaderLacksFlipscreenType | backend/main.py:60 | The loaded camera table has no column 'Flipscreen type'; the header says 'Flipscreen Type'. |
| Catalog.DroneHeaderLacksObstacle | backend/main.py:133 | The loaded drone table has no column 'Obstacle Avoidance Sensor'; the header's name starts with a space. |
| Filters.ApplyFilters | backend/main.py:220-498 | Filtering keeps the columns and never adds rows. |
| Filters.ApplyFiltersKeeps | backend/main.py:220-498 | On a table whose payload column, if it has one, holds no text, the filter keeps exactly the rows that pass every planned selection, in order. |
| Filters.ApplyFiltersSubsequence | backend/main.py:220-498 | When the payload column, if present, holds no text, the filtered rows are a subsequence of the input rows. |
| Filters.ResultSatisfies | backend/main.py:220-498 | When the payload column, if present, holds no text, every surviving row is an input row and passes every planned selection. |
| Filters.MoreCriteriaFewerRows | backend/main.py:220-498 | When the payload column, if present, holds no text, adding criteria narrows the result: the rows for the larger bag are a subsequence of those for the smaller one. |
| Filters.IgnoredKey | backend/main.py:220-498 | A key that no block of the category reads neither changes the result when present nor when absent. |
| Filters.OtherConditionIgnored | backend/main.py:222-225 | A Condition other than new or used, in any letter case, changes nothing. |
| Filters.PriceWindow | backend/main.py:487-496 | When the payload column, if present, holds no text, every surviving row's price is a number between the bounds truncated by `int()`, inclusive. |
| Filters.PriceRequired | backend/main.py:487-494 | Without a `price` criterion the filter fails instead of passing every row. |
| Filters.PriceBoundsOfPair | backend/main.py:487-494 | A pair of integers, as numbers or as their decimal text, gives exactly those bounds. |
| Filters.PriceBoundsOfString | backend/main.py:487-494 | The string "59" gives the bounds 5 and 9. A one-element list fails on index 1. None fails as unsubscriptable. |
| Filters.BucketSelects | backend/main.py:232-476 | When the payload column, if present, holds no text: for every bucket criterion, each surviving row's column holds a number inside the label's interval. |
| Filters.UnknownLabelFails | backend/main.py:238-471 | A bucket criterion whose value is not one of the labels makes the filter fail. |
| Filters.UnknownFourKFails | backend/main.py:259-264 | A '4K Video' value other than "Yes" or "No" makes the camera filter fail. |
| Filters.UnknownPayloadIgnored | backend/main.py:404-411 | A gimbal payload value that is not a label, and not a list, changes nothing. |
| Filters.ColumnReadFirst | backend/main.py:226-434 | The Colour (228), '4K Video' (264) and Device Compatibility (434) blocks read the table column before the request value. A missing column raises KeyError whatever the value is. |
| Filters.MissingColourBeforeValue | backend/main.py:226-228 | A camera table without a Colour column, asked for the colour 1, fails with KeyError('Colour') rather than with the value's missing `lower`. |
| Filters.FeatureSelects | backend/main.py:296-303 | When the payload column, if present, holds no text, a present and truthy feature keeps only rows whose feature column is 1. |
| Filters.ObstacleNeedsColumn | backend/main.py:357-364 | Without an obstacle-sensor column the drone filter ignores that criterion. |
| Filters.FlipscreenTypeNeedsColumn | backend/main.py:281-285 | A flip-screen type asked for with Flipscreen "Yes" fails on a table without a 'Flipscreen type' column. |
| Filters.CameraFlipscreenTypeNeedsColumn | backend/main.py:281-285 | The camera filter fails on such a request. |
| Filters.SegmentFailureFails | backend/main.py:220-498 | An exception raised by any block ends the whole filter with an error. |
| Filters.SegmentInPlan | backend/main.py:220-498 | When the filter runs to the end, every block's selections are part of it. |
| Filters.RulesEnds | backend/main.py:222-225 | Every category's filter starts with the condition block and ends with the price block. |
| Filters.PlanCoercesPayloadOnly | backend/main.py:415 | The only in-place column write in the filter is the payload column's coercion. |
| Filters.FilterPlanSettled | backend/main.py:415 | When the payload column holds no text, or the table has none, that coercion changes no row. |
| Filters.PlanNoCoercion | backend/main.py:404-415 | A table without a payload column gets no column coercion from the filter. |
| Filters.PlanOfParts | backend/main.py:220-498 | The plan fails iff a block fails. Otherwise its selections are exactly the blocks' selections. |
| Filters.SegmentLocal | backend/main.py:220-498 | Each block depends only on the criteria keys it reads. |
| Filters.SegmentNarrows | backend/main.py:220-498 | More criteria give each block more selections, never fewer. |
| Filters.CategoryRulesKeys | backend/main.py:232-484 | No per-category block reads the Condition key. |
| Buckets.BucketAgreement | backend/main.py:232-476 | A label is known iff it has an interval. A row passes the dictionary's comparisons iff its column holds a number inside that interval. |
| Buckets.RangeStepsOnRow | backend/main.py:232-476 | The comparisons of a `(min, max)` tuple hold iff the column value lies in the tuple's interval, ends open or closed per field. |
| Buckets.LabelsKnown | backend/main.py:232-476 | The labels of each dictionary are exactly the buckets. |
| Buckets.LabelsMeanBuckets | backend/main.py:232-476 | Each dictionary tuple sets at least one bound and means the bucket's interval. |
| Buckets.DroneWeightEdges | backend/main.py:329-336 | 250 g is Medium, not Light. 900 g is in no bucket. |
| Buckets.DroneRangeGap | backend/main.py:380-388 | A range strictly between 9 and 10 km is in no bucket. |
| Buckets.ActionWeightOverlap | backend/main.py:449-456 | 100 g is both Light and Medium. |
| Selection.KeepRowsMembers | backend/main.py:220-498 | A row is kept iff it is an input row and passes every selection. |
| Selection.KeepRowsCompose | backend/main.py:220-498 | Filtering twice is filtering once with both selection lists. |
| Selection.KeepRowsSubseq | backend/main.py:220-498 | Kept rows form a subsequence of the input. |
| Selection.KeepRowsNarrowing | backend/main.py:220-498 | More selections keep a subsequence of what fewer selections keep. |
| Selection.KeepRowsAll | backend/main.py:220-498 | When every row passes, every row is kept. |
| Selection.SelectRowsKeeps | backend/main.py:220-498 | One successful selection keeps exactly the rows passing it. |
| Selection.RunKeeps | backend/main.py:220-498 | A successful run keeps the columns and exactly the rows passing every selection. |
| Selection.RunMissingColumn | backend/main.py:220-498 | A selection on a column the table lacks makes the run fail. |
| Selection.CoercedIdentity | backend/main.py:415 | Coercing a column that holds no text changes no row. |
| Scoring.CalculateScores | backend/main.py:500-551 | The method yields exactly `Scored`: lower-cased labels, effective purposes, NaN filled, and the mean or 0 as score. |
| Scoring.CollectPurposes | backend/main.py:509-514 | The loop collects exactly the effective purposes, in order. |
| Scoring.FillPurposes | backend/main.py:522-528 | The loop fills NaN with 0 in exactly the effective purpose columns. |
| Scoring.Effective | backend/main.py:509-514 | Every effective purpose was selected and is usable. With no usable selection the list is empty. |
| Scoring.EffectiveCounts | backend/main.py:509-514 | A usable purpose occurs in the effective list as often as it was selected; an unusable one never occurs. |
| Scoring.PurposeNames | backend/main.py:507 | An absent purposes key gives no purposes. A list gives its lower-cased strings, and fails on a non-string. A string gives its lower-cased letters. A scalar is not iterable. |
| Scoring.ScoreIsMean | backend/main.py:518-530 | Each row's score is the mean of its effective purpose values, or 0 when there are none. |
| Scoring.NoPurposeScoresZero | backend/main.py:518-520 | With no usable purpose every score is exactly 0. |
| Scoring.ScoreInUnitRange | backend/main.py:530 | When the purpose values lie in [0, 1], so does the score. |
| Scoring.MeanBounds | backend/main.py:530 | A mean lies between the least and greatest of its values. |
| Scoring.DuplicatesCountTwice | backend/main.py:510-530 | A purpose selected twice weighs twice in the mean. |
| Scoring.ScoredShape | backend/main.py:500-551 | Scoring keeps the rows, lower-cases every label and adds the score column. |
| Scoring.ScoringKeepsCells | backend/main.py:522-528 | Scoring changes no cell except the NaN of effective purpose columns, which become 0. |
| Scoring.FillWithoutNaN | backend/main.py:526-527 | A column without NaN is not changed by filling. |
| Scoring.LowerRowKeys | backend/main.py:505 | A lower-cased row's keys are the lower-cased labels. |
| Scoring.LowerRowGet | backend/main.py:505 | When no other label lower-cases to the same name, a lower-cased label reads the original cell. |
| Ranking.SortByScore | backend/main.py:576 | The result is in non-increasing score order, rows without a score last, and is a permutation of the input. |
| Ranking.SortKeepsEmptiness | backend/main.py:576-578 | The sorted table is empty iff the input is. |
| Ranking.SortPutsBestFirst | backend/main.py:576 | The first sorted row precedes every input row. |
| Ranking.PrecedesTotal | backend/main.py:576 | Any two rows are ordered one way or the other. |
| Ranking.RoundClose | backend/main.py:588 | Rounding to two places moves a value by at most 0.005. |
| Ranking.RoundExact | backend/main.py:588 | A value with two decimals is unchanged by rounding. |
| Ranking.RoundMonotone | backend/main.py:588 | Rounding keeps non-increasing order. |
| Service.RoundCell | backend/main.py:588 | A number is rounded, NaN stays NaN, and text cannot be rounded. |
| Service.FormatRecord | backend/main.py:583-594 | Formatting fails iff the score is text, and then as not roundable. The details hold exactly the lower-cased labels other than the seven promoted ones. |
| Service.RecordOfRow | backend/main.py:583-594 | Each promoted field is the row's cell or its fallback: "unknown", "N/A", "black", "", "unknown", "none". The score is rounded. The details map every other column to its cell. |
| Service.RecordScoreClose | backend/main.py:588 | A record's score is within 0.005 of the row's score. |
| Service.RecordsMeaning | backend/main.py:581-595 | Formatting succeeds iff every row formats. It then yields one record per row, in row order. |
| Service.CollectSucceeds | backend/main.py:581-595 | Collecting records succeeds iff every row gave a record. |
| Service.CollectInOrder | backend/main.py:581-595 | Collected records are the rows' records, in order. |
| Service.CollectStops | backend/main.py:581-595 | After the first failing row, the loop's result is that failure. |
| Service.FormatRecommendations | backend/main.py:581-595 | The loop appends records in order and yields `Records`, or the first row's error. |
| Service.Recommend | backend/main.py:555-601 | The handler yields exactly `Recommendation`: category check, filter, score, sort, then the no-match message or the records. |
| Service.RecommendationErrors | backend/main.py:559-562 | A failed request carries exactly one of three errors: an unknown lower-cased category, else the filter's error, else the purposes error. The request succeeds iff none of them happens. |
| Service.NoMatchExactly | backend/main.py:578-579 | The no-match message is returned iff the request is otherwise valid and no row survives the filter. |
| Service.RecommendationsRanked | backend/main.py:576-595 | There is one record per surviving row. Each has a numeric score. Scores are non-increasing. Each record is the record of a scored row. |
| Service.RankedRecords | backend/main.py:576-595 | Formatting the sorted rows yields one record per row, with non-increasing numeric scores, each from an input row. |
| Service.ScoredForFormatting | backend/main.py:505-549 | After scoring, labels are lower-case, "score" is a column, and every score is a number. |
| Service.SameFiltersSameResponse | backend/main.py:555-598 | Two requests whose filters and purposes agree get the same response. |
| Service.DronesIgnoreObstacle | backend/main.py:357-364 | On a drone table without the sensor column, the sensor criterion does not change the response. |
| Service.LoadedDronesIgnoreObstacle | backend/main.py:133 | On the loaded drone catalog, the sensor criterion never changes the response. |
| Service.LoadedCamerasRejectFlipscreenType | backend/main.py:285 | On the loaded camera catalog, asking for a flip-screen type with Flipscreen "Yes" always fails. |
| Service.RecommendationCount | backend/main.py:567-595 | When the category's payload column, if present, holds no text, the number of records is the number of rows passing every planned selection. |
| Service.LoadedPayloadSettled | backend/main.py:194-197 | In every table of a loaded catalog, the payload column holds no text where it exists, so the filter's coercion is a no-op. |
| Service.LoadedRecommendationCount | backend/main.py:194-595 | On a loaded catalog, for every category, the number of records is the number of rows passing every planned selection. |
| Service.LoadedTable | backend/main.py:211 | A loaded catalog holds each category's table under its name. |
| Text.ParseIntText | backend/main.py:493-494 | `int()` of an integer's decimal text gives that integer back. |
| Text.TruncTowardZero | backend/main.py:493-494 | `int()` of a number truncates toward zero. |
| Text.StripLower | backend/main.py:171 | Stripping and lower-casing commute. |
| Text.StripIdempotent | backend/main.py:171 | Stripping twice equals stripping once. |
| Text.LowerIdempotent | backend/main.py:171 | Lower-casing twice equals lower-casing once. |
| Text.CapitalizedYes | backend/main.py:183 | A text capitalises to "Yes" iff it lower-cases to "yes". |

## Left out

- Fetching the inventory from Google Sheets, the price parsing of line 51 (stripping `$` and `,`, then a `float` cast) and the CSV log writes (lines 42-55 and 278). The inventory is an input table whose prices are already numbers or text.
- The `lru_cache` around the loader (line 37). The catalog is an explicit input of the endpoint.
- The hard-coded spec tables (lines 60-165) are data. Only their headers (`CameraHeader`, `DroneHeader`) appear, to show the column-name mismatches.
- The FastAPI app, CORS, the request model and the server start (lines 1-34 and 603-605). HTTP status codes are not modelled: every exception is an `Err`, and the 400 for an unknown category (`InvalidCategory`) reaches the caller as a 500, like every other error.
- Diagnostics with no effect on the result: `value_counts`, the score statistics and the warning prints (lines 516, 524 and 532-544).
- Floating point. Scores and prices are real numbers, and the mean is exact.
- Ranking.Round2: rounds exactly, half to even, on real numbers. Python's rounding of a binary float can differ from this at a half.
- `str.contains` (line 462) is plain substring containment; its regular-expression syntax is not modelled.
- `pd.to_numeric` is modelled as "a number stays; a plain decimal text, possibly signed, parses; anything else becomes 0". Exponents, `inf` and `nan` spellings are not parsed.
- Upper- and lower-casing map ASCII letters only. `strip` removes only the ASCII blanks (space, tab, line feed, carriage return, vertical tab, form feed). Python also strips `\x1c`-`\x1f`, `\x85`, `\xa0` and the other Unicode spaces.
- `int()` accepts an optionally signed run of ASCII digits with surrounding blanks. Python also accepts `_` between digits and non-ASCII decimal digits.
- When two column labels lower-case to the same name, the model keeps the later one. pandas would keep both labels.
- The suffixes pandas adds to clashing column names in a merge are not modelled. The inventory fields replace the spec's columns of the same name.
- Ranking.SortByScore: does not fix the order of rows with equal scores, because `sort_values` uses an unstable quicksort. Only the non-increasing order and the permutation are stated.
- Scoring.CalculateScores: the `except` at lines 545-547 has no counterpart. In the model the mean cannot raise, because every effective purpose column is numeric.
- pandas dtypes are approximated per cell. A purpose column is numeric when every row holds a number or NaN. The `.str` accessor (lines 171, 183, 209, 225 and 462) raises AttributeError in pandas on a column that holds no strings at all. The model instead applies the string operation cell by cell and treats each non-string cell as NaN.
- JSON objects as criteria values. A criterion value is null, a boolean, a number, a string or a list. With an object, pandas and Python would act differently per block: the price block would raise KeyError on index 0 (line 493), `purposes` would iterate the object's keys (line 507), and a bucket label lookup would raise TypeError, because a dict is unhashable.
- A list used in an exact match (`df[col] == value`, lines 244 and 285). pandas compares a list element by element when its length equals the row count, and raises ValueError otherwise. The model fails on every non-empty table and keeps an empty one. It therefore differs from pandas in two cases: when the list's length equals the number of rows, and on an empty table with a non-empty list, where pandas raises.
