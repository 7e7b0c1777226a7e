# Digital marketing campaign dashboard: the data pipeline

This project models the data pipeline of a small Streamlit dashboard, `app.py`, for a
marketing-campaign dataset. Between reading the CSV file and drawing the page, the script:

1. **cleans** the table (lines 11-17). It drops every row with a missing cell, then drops exact
   duplicate rows (keeping the first), then removes the columns `AdvertisingPlatform` and
   `AdvertisingTool`;
2. **filters** it with the sidebar values (lines 26-45). These are an inclusive age range, a
   campaign channel or "All", a gender or "All", and an inclusive income range. They are applied
   one after another by rebinding `filtered_df`;
3. **aggregates** the filtered table (lines 50-86). It computes the average click-through rate,
   the average conversion rate and the total ad spend, the ConversionRate sum per income
   bracket (`pd.cut`), and four `groupby` series: mean ConversionRate by TimeOnSite, mean
   ConversionRate by Age, mean LoyaltyPoints by CampaignType, and summed PreviousPurchases by
   SocialShares.

Modules, one per stage:

- `Wrappers`: `Option`.
- `Seqs`: distinctness, subsequences, and keep-first duplicate removal (`Dedup`).
- `Table`: the cleaned `Record`.
- `Cleaner`: `RawRow` (every cell optional), `FullRow`, and the three cleaning steps.
- `FilterEngine`: `Choice = Any | Is(v)`, the filter conditions, `Where`, and the method
  `ApplyFilters`, which rebinds `filtered` step by step as the script does.
- `Keys`: group keys and the ascending order pandas sorts them in.
- `Aggregator`: sums, means, `Cut`, income brackets, `GroupBy`, and the lemmas that group sums
  add up to totals.
- `Dashboard`: the script as one method, `Run`, plus the KPI and chart functions.

Numeric columns are `int` (Age, Income, SocialShares, PreviousPurchases, LoyaltyPoints) or
`real` (AdSpend, ClickThroughRate, ConversionRate, TimeOnSite). pandas' NaN for the mean of an
empty table is `None`.

### Where the code and its documented intent differ

Read top to bottom, the cleaning steps suggest that the cleaned table holds no duplicate
record. The code does not achieve this: `drop_duplicates` (line 14) runs *before* the two
columns are dropped (line 17). So two rows that differ only in AdvertisingPlatform or
AdvertisingTool both survive and become equal records. The model follows the code:

- `Cleaner.CleanCanRepeatRecords` exhibits such a pair.
- `Cleaner.CleanDistinctWhenAdColumnsConstant` proves there are no duplicate records when those
  two columns are constant over the complete rows.
- `Cleaner.CleanColumnsFirst` is the intended order: drop missing rows, then the two columns,
  then duplicates. `Cleaner.CleanColumnsFirstDistinct` proves it never repeats a record.
  `Cleaner.CleanColumnsFirstSameRecords` proves it keeps the same records as the code's order.
  `Dashboard.Run` still uses the code's order, `Cleaner.Clean`.

Because of the code's order, idempotence is stated only for lines 11-14 (`Cleaner.CleanRowsIdempotent`). The
whole cleaning cannot be re-run on its own output: line 17 would fail there, because the two
columns are already gone. Removing duplicates again after line 17 can also drop rows, as
`Cleaner.CleanCanRepeatRecords` shows.

Income brackets follow pandas' defaults (`right=True`, `include_lowest=False`). The bins are
therefore right-closed: (0, 30000], (30000, 60000], … (120000, 150000]. The comment at line 84 and the
variable name at line 86 speak of campaign type, but line 86 groups by SocialShares. Likewise the
chart titled "Campaign Type vs Conversion Rate" (line 80) averages LoyaltyPoints. The model
keeps both as coded. The script tests for the literal string `'All'` (lines 39 and 42), so a real category
named "All" could never be chosen as a constraint. `FilterEngine.SelectionChoice` models that
test.

## Model

| member | source | states |
|---|---|---|
| `Seqs.DedupElements` | app.py:14 | duplicate removal keeps exactly the elements of its input (x survives iff x occurs) |
| `Seqs.DedupDistinct` | app.py:14 | after duplicate removal no element occurs twice |
| `Seqs.DedupSubsequence` | app.py:14 | the survivors keep their relative order (the result is a subsequence of the input) |
| `Seqs.DedupSnoc` | app.py:14 | keep-first: appending an element already present adds nothing, appending a new one adds it at the end |
| `Seqs.DedupUnchangedIff` | app.py:14 | duplicate removal leaves a table unchanged iff it has no repeated row |
| `Seqs.DedupIdempotent` | app.py:14 | removing duplicates twice equals removing them once |
| `Seqs.DedupDuplicatedRow` | app.py:14 | distinct rows followed by a copy of one of them keep exactly one copy |
| `Seqs.DedupOneCopyAnywhere` | app.py:14 | distinct rows with one extra copy of an earlier row inserted anywhere after it keep exactly one copy of every row, in order |
| `Cleaner.DropMissingCount` | app.py:11 | `dropna` keeps each complete row as often as it occurs and drops every row with a missing cell |
| `Cleaner.DropMissingSubsequence` | app.py:11 | `dropna` keeps the order of the surviving rows |
| `Cleaner.DropMissingOfComplete` | app.py:11 | a table without missing cells passes `dropna` unchanged |
| `Cleaner.Project` | app.py:17 | column removal keeps all twelve remaining fields of a row unchanged |
| `Cleaner.DropColumns` | app.py:17 | column removal keeps the row count and the order, and maps each row to its projection |
| `Cleaner.ProjectForgetsExactlyAdColumns` | app.py:17 | two rows become equal under column removal iff they differ only in AdvertisingPlatform and AdvertisingTool |
| `Cleaner.CleanMembership` | app.py:11-17 | a record is in the cleaned table iff some complete raw row projects to it |
| `Cleaner.CleanNoLonger` | app.py:11-17 | cleaning never adds rows; the cleaned table is no longer than the `dropna` result, which is no longer than the input |
| `Cleaner.CleanRowsIdempotent` | app.py:11-14 | running `dropna` and `drop_duplicates` again on their own output changes nothing |
| `Cleaner.CleanKeepsOneCopy` | app.py:11-14 | distinct complete rows with one extra copy of a row, placed anywhere after the original, clean to one copy of every row in the original order |
| `Cleaner.CleanCanRepeatRecords` | app.py:14-17 | because duplicates are removed before the columns, two rows differing only in AdvertisingPlatform yield two equal records |
| `Cleaner.CleanDistinctWhenAdColumnsConstant` | app.py:14-17 | with AdvertisingPlatform and AdvertisingTool constant, the cleaned table has no repeated record and re-deduplicating changes nothing |
| `Cleaner.CleanColumnsFirstDistinct` | app.py:14-17 | with the two columns dropped before duplicates are removed, the cleaned table never repeats a record |
| `Cleaner.CleanColumnsFirstSameRecords` | app.py:14-17 | that order keeps exactly the records the code's order keeps |
| `FilterEngine.SelectionChoice` | app.py:39-43 | the selection "All" means no constraint; any other selection constrains to that value |
| `FilterEngine.Conditions` | app.py:36-45 | the four masks together hold of a record iff it satisfies the conjunctive filter (both bounds inclusive, "All" meaning any) |
| `FilterEngine.ApplyFilters` | app.py:36-45 | the sequential chain equals the single conjunctive filter; the result is a subsequence of the input; a record survives iff it is in the input and satisfies every condition, keeping its multiplicity |
| `FilterEngine.WhereCount` | app.py:36 | a mask keeps each passing row as often as it occurs and no failing row |
| `FilterEngine.WhereMembership` | app.py:36 | a row is in the masked table iff it is in the table and passes the mask |
| `FilterEngine.WhereSubsequence` | app.py:36 | masking keeps the order of the kept rows |
| `FilterEngine.WhereUnchangedIff` | app.py:36 | a mask returns the table unchanged iff every row passes |
| `FilterEngine.WhereSequential` | app.py:36-45 | narrowing a masked table by further conditions equals one mask with all conditions |
| `FilterEngine.WhereSameConditions` | app.py:39-43 | condition lists that hold of the same records mask alike (skipping an "All" choice equals applying it) |
| `FilterEngine.MinOf` | app.py:26-33 | the smallest age or income of a non-empty table: a lower bound that is attained |
| `FilterEngine.MaxOf` | app.py:26-33 | the largest age or income of a non-empty table: an upper bound that is attained |
| `FilterEngine.FullRangeKeepsTable` | app.py:26-45 | with both choices "All" and both ranges spanning the data's minimum and maximum, the filter returns the table unchanged |
| `FilterEngine.FiveRecordScenario` | app.py:36-45 | ages 20, 25, 40, 70, 30 under the range 18-65 keep all but the 70-year-old, in order |
| `Keys.StrLessIrreflexive` | app.py:81 | string order used by `groupby` sorting is irreflexive |
| `Keys.StrLessTransitive` | app.py:81 | string order is transitive |
| `Keys.StrLessTotal` | app.py:81 | any two different strings are ordered one way or the other |
| `Keys.InsertMembership` | app.py:71-86 | inserting a key into the key list adds exactly that key |
| `Keys.InsertAscending` | app.py:71-86 | inserting a key keeps a strictly ascending key list strictly ascending |
| `Keys.AscendingDistinct` | app.py:71-86 | a strictly ascending key list has no repeated key |
| `Aggregator.Mean` | app.py:50-54 | the mean has no value exactly for an empty table; otherwise mean times row count equals the sum |
| `Aggregator.TotalBounds` | app.py:56 | if every value lies in [lo, hi], the sum lies in [n·lo, n·hi] |
| `Aggregator.MeanWithinBounds` | app.py:50-54 | the mean of a non-empty table lies between any lower and upper bound of its values |
| `Aggregator.CutBins` | app.py:65 | a value gets a label iff it lies in (first edge, last edge]; the label is that of the unique right-closed bin containing it |
| `Aggregator.IncomeBracketSpec` | app.py:65 | no bracket at or below 0 or above 150000; bracket i iff the income lies in (edge i, edge i+1]; labels in edge order |
| `Aggregator.IncomeLabelsDistinct` | app.py:65 | the five bracket labels are pairwise different, so each income has at most one label |
| `Aggregator.IncomeBracketBoundaries` | app.py:65 | 150000 is in "120k+", 150001 and 0 are in no bracket, 30000 is in "<30k", 30001 in "30k-60k" |
| `Aggregator.SumWhereBracket` | app.py:65-66 | a bracket's group sum equals the sum over the rows whose income lies in that bracket's interval |
| `Aggregator.IncomeBracketSums` | app.py:65-66 | five groups in label order; each value is the ConversionRate sum over the rows whose income lies in that bracket (0 if none) |
| `Aggregator.BracketSumsAddUp` | app.py:65-66 | the per-bracket sums add up to the ConversionRate sum over the rows whose income is in (0, 150000] |
| `Aggregator.KeysOfMembership` | app.py:71-86 | the group keys are exactly the values the grouping column takes |
| `Aggregator.KeysOfAscending` | app.py:71-86 | the group keys come out strictly ascending (pandas sorts group keys by default) |
| `Aggregator.GroupBy` | app.py:71-86 | one group per distinct value of the grouping column, the groups in key order |
| `Aggregator.GroupByAscending` | app.py:71-86 | the keys of a `groupby` result are strictly ascending, hence distinct |
| `Aggregator.GroupByKeysExact` | app.py:71-86 | every key of the result is a value of the column, and every value of the column is a key |
| `Aggregator.GroupSum` | app.py:86 | in a `.sum()` result every group is non-empty and its value is the sum over exactly the rows with that key |
| `Aggregator.GroupMean` | app.py:71-81 | in a `.mean()` result every group is non-empty and its value times its size is the sum over exactly the rows with that key |
| `Aggregator.SumOverConserves` | app.py:66-86 | for distinct keys, the group sums add up to the sum over the rows that belong to one of the groups |
| `Aggregator.GroupSumsAddUp` | app.py:86 | the PreviousPurchases group sums (by SocialShares, or any key column) add up to the column total |
| `Aggregator.GroupMeansWeighted` | app.py:71-81 | the group means weighted by group size add up to the column total |
| `Dashboard.KpisOf` | app.py:50-57 | both averages are absent exactly for an empty table; otherwise average times count is the sum. Total ad spend is the AdSpend column sum, 0 for an empty table |
| `Dashboard.ChartsOf` | app.py:65-86 | the income chart lists the five brackets in order with their sums, which add up to the bracketed total; the last chart groups PreviousPurchases by SocialShares and adds up to the total |
| `Dashboard.Run` | app.py:11-86 | the filtered table is the cleaned table masked by the sidebar filter: a subsequence of it that keeps each satisfying record with its multiplicity and no other record. The KPIs and charts are those of the filtered table |
| `Dashboard.FiveRecordAverage` | app.py:36-53 | with ages 20, 25, 40, 70, 30 and range 18-65, the average ConversionRate is the mean of the four records other than the 70-year-old |

## Left out

- Reading the CSV file (app.py:8) is file I/O. The raw rows are a parameter of `Dashboard.Run`.
  Only the fourteen columns the script uses or drops are modelled; other columns of the file are
  not. They would take part in both `dropna` (line 11) and `drop_duplicates` (line 14).
- Page configuration, sidebar widgets, layout, metric tiles, charts and number formatting
  (app.py:19-33, 48-87) are Streamlit calls. The sidebar values are parameters of `Run`. How the
  slider ranges are built from the data is modelled only as `MinOf` and `MaxOf`.
- As coded, an empty cleaned table makes `int(df['Age'].min())` fail, since `int(nan)` raises
  (app.py:26). The script then computes no KPIs and no charts. `MinOf` and `MaxOf` are therefore
  defined only for a non-empty table. `Dashboard.Run` does not model this failure: on an empty
  cleaned table it returns an empty filtered table, no averages and empty charts.
- Streamlit's rejection of slider defaults outside the slider's range is not modelled.
- Floating point: fractional columns are exact `real`, so rounding in sums and means is not
  modelled. NaN appears only as `None` for the mean of an empty table.
- Row identity: the model compares rows by value, not by pandas index label. "Subsequence"
  means order-preserving selection of values.
- Aggregator.IncomeBracketSums: follows grouping by a categorical with `observed=False`, the
  default through pandas 2.x: all five brackets are listed, empty ones with sum 0. Under
  `observed=True` empty brackets would be absent.
- The unused imports `numpy`, `altair` and `seaborn` (app.py:3-5), and how pandas implements
  these operations internally.
