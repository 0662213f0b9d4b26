# Social media engagement dashboard: the data pipeline

This project models the data pipeline behind a Streamlit dashboard of social
media posts (`app.py`) and proves what that pipeline guarantees. The
pipeline has three parts:

- **Loading** (`load_data`). The header is standardised. The key column is
  checked. Dates are parsed and undated rows are dropped. Weekday columns
  are derived. The three engagement metrics are coerced to integers. The
  total engagement column is added. The content type gets its default.
- **Filtering.** The sidebar's content-type and date-range filters are
  applied to the loaded table.
- **Views.** The dashboard computes these from the filtered table:
  - the KPI sums;
  - the top 20 posts;
  - daily, weekday and content-type totals;
  - the single top post.

A table is a `Frame`: a header (`seq<string>`) and rows of cells. A cell is
one of: missing, an integer, a text, or a date given as a day number (day 0
is 1970-01-01). Assigning a column overwrites the first column of that name,
or appends a new one, as `df[c] = ...` does when names are unique (for
duplicated names, see the `Loader.LoadData` line under "## Left out").

Modules:

- `Values`: cells, decimal numerals, numeric coercion.
- `Seqs`: order-preserving selection and sums.
- `Frames`: tables and column assignment.
- `Columns`: header standardisation.
- `Calendar`: weekdays.
- `Loader`: `load_data`.
- `Filters`: the filter block.
- `Ranking`: `nlargest` and `idxmax`.
- `Groups`: sorted `groupby(...).sum()`.
- `Views`: the dashboard aggregations.

`load_data` and the filter block rewrite a local table step by step. They are
modelled as methods that reassign a local `Frame`, each stage checked
against a specification predicate. The aggregations are single expressions
and are modelled as functions with lemmas.

Two behaviours of the code are easy to miss:

- Standardisation deletes dots instead of turning them into `_` (the comment
  at line 22 says otherwise; the model follows the code). So "Post ID" names
  the key column and "Post.ID" does not (`Columns.SpacedSpelling`,
  `Columns.DottedSpelling`).
- Standardisation is idempotent when a name's only whitespace is spaces
  (`Columns.NormalizeIdempotent`). Otherwise it can fail to be: deleting the
  dot of ".\tx" uncovers a tab that `strip()` has already passed over
  (`Columns.NormalizeNotIdempotent`).

The external parts are parameters:

- `pd.read_csv`: the raw table is an input.
- `pd.to_datetime`: a function `parse: Cell -> Option<int>` from a cell to a
  day number, `None` when it cannot be read.
- The widget values (selected types, the checkbox, the slider range): plain
  parameters of the filter.

## Model

| member | source | states |
|---|---|---|
| Columns.NormalizeName | app.py:23 | a standardised name contains no space, no `.` and no ASCII upper-case letter |
| Columns.NormalizeHeader | app.py:23 | column `i` of the new header is the standardised form of raw column `i`, one name per column, so a name occurs in it exactly when some raw name standardises to it |
| Columns.Strip | app.py:23 | `strip()` returns a slice of the name, cutting only whitespace from either end, and the result neither starts nor ends with whitespace |
| Columns.SpacesToUnderscores | app.py:23 | every space becomes `_` and every other character is kept in place |
| Columns.DeleteDots | app.py:23 | deleting the dots never lengthens a name |
| Columns.DeleteDotsAppend | app.py:23 | dot deletion splits over concatenation, so the characters it keeps stay in their order |
| Columns.DeleteDotsChars | app.py:23 | the dot deletion keeps exactly the characters other than `.` |
| Columns.Lower | app.py:23 | `lower()` keeps the length and maps each character in place to its lower-case form (ASCII letters) |
| Columns.NoWhitespaceAfter | app.py:23 | a name whose only whitespace is spaces standardises to a name with no whitespace at all |
| Columns.NormalFixed | app.py:23 | a name that is already standard is left unchanged |
| Columns.NormalizeIdempotent | app.py:23 | for names whose only whitespace is spaces, standardising twice equals standardising once |
| Columns.NormalizeStripped | app.py:23 | surrounding whitespace never changes the standardised name |
| Columns.NormalizeNotIdempotent | app.py:23 | with a tab hidden behind a dot, standardising a second time changes the name |
| Columns.SpacedSpelling | app.py:23 | the raw header "Post ID" standardises to the key `post_id` |
| Columns.DottedSpelling | app.py:23 | the raw header "Post.ID" standardises to `postid`, which is not the key |
| Loader.Renamed | app.py:23 | column `i` of the new header is the standardised form of raw column `i`, and every row is unchanged |
| Loader.LoadData | app.py:17-69 | without a `post_id` column the result is the empty table with one fatal error. Otherwise the result satisfies `Canonical` and the warnings are those of `Warnings`. A fatal notice is issued exactly when the key is missing |
| Loader.Process | app.py:30-65 | on a table with a key column, the pipeline yields a table in which each surviving input row is loaded as `LoadedRow` says, in order. The loaded header holds exactly the standardised input columns and the written columns. The warnings, none of them fatal, follow the columns present |
| Loader.TextIds | app.py:30 | every `post_id` cell becomes its text form and no other cell changes |
| Loader.Survivors | app.py:33-35 | the surviving row positions ascend, and they are exactly the rows whose date parses (every row when there is no date column) |
| Loader.ParseDates | app.py:33-46 | with a date column, the rows whose date does not parse are dropped and each kept row carries its date, weekday name and weekday number. Without one, the three date columns are all missing and one warning is issued. Every other cell is carried over from the row kept |
| Loader.DatedRows | app.py:34-39 | the date branch (convert, `dropna`, `day_name`, `dayofweek`) meets `DatesParsed` for the surviving rows |
| Loader.DatedSurvivors | app.py:34-35 | the rows `dropna` keeps after conversion are exactly the rows whose date parses |
| Loader.UndatedRows | app.py:43-46 | without a date column every row survives in order, with the three date fields missing |
| Loader.CoerceMetrics | app.py:50-56 | each of likes, shares and comments becomes the count coerced from its cell (0 for an absent column). No row is added or removed and no other column changes. The warnings are `AbsentMetrics`, which `Loader.AbsentMetricsNamed` shows is one warning per absent metric, in the order of the metrics |
| Loader.CoerceColumn | app.py:52-56 | one loop pass: the column's cells become their counts (all 0 when the column is absent, with a warning), and every other column is unchanged |
| Loader.CoerceStep | app.py:51-56 | one pass of the loop preserves the loop invariant `CoercedUpTo` |
| Loader.AddTotal | app.py:59-64 | the total column holds likes + shares + comments on every row. The content type is kept, or set to "Unknown" with a warning when absent. Nothing else changes |
| Loader.Totals | app.py:59 | one integer per row: the sum of that row's likes, shares and comments |
| Loader.DefaultType | app.py:62-64 | afterwards the content type column exists. It is unchanged when it was present. Otherwise it is appended with "Unknown" on every row |
| Loader.FinishRows | app.py:59-64 | the last two assignments meet `Finished` |
| Loader.Warnings | app.py:43-63 | the warnings after the key check: none is fatal and no two are alike. There is a date warning exactly when the date column is absent, and it comes first. There is a metric warning exactly for each absent metric. There is a type warning exactly when the content type is absent, and it comes last. There are at most five in all |
| Loader.AbsentMetricsNamed | app.py:51-55 | after `j` passes the loop has warned once about each absent metric among the first `j`, in the order of the metrics, and about nothing else, so no two warnings are alike |
| Loader.ToDate | app.py:34 | the coercing date conversion turns a cell that parses into its date and every other cell into NaT |
| Loader.SurvivorsAgree | app.py:30-35 | which rows survive depends only on the date column, so converting the key column first changes nothing |
| Loader.LoadedRowOf | app.py:30-64 | each output row, traced back through the four stages, is its input row loaded as `LoadedRow` says |
| Loader.StagesLoaded | app.py:30-64 | the composition of the four stages yields a table that satisfies `Loaded` |
| Loader.CanonicalShaped | app.py:33-64 | every loaded row has a text key and integer metrics whose sum is the total. Its weekday columns agree with its date. All rows are dated when the input had a date column, and none are otherwise |
| Values.ParseShow | app.py:53 | a number printed in decimal reads back as itself under the metric coercion |
| Values.ParseAnyDecimal | app.py:53 | any decimal numeral, canonical or not (".5", "-0.5", "+3.", "007.25"), coerces to its sign applied to the value of its integral digits |
| Values.ParseAnyInteger | app.py:53 | any integer numeral, with or without a sign or leading zeros ("007", "+5"), coerces to its sign applied to the value of its digits |
| Values.ParseTruncates | app.py:53 | a decimal numeral `i.ddd` coerces to `i`: the fraction is truncated toward zero, whatever the sign |
| Values.ParseNumeral | app.py:53 | a text is read as a number exactly when it matches the numeral grammar `IsNumeral`: an optional sign, then digits with at most one `.`, and at least one digit |
| Values.UnsignedGrammar | app.py:53 | the unsigned reader accepts exactly the unsigned numerals of the grammar, in both directions |
| Values.ToCount | app.py:53 | the metric coercion keeps an integer, turns a missing cell into 0, turns a text that is not a numeral into 0, and reads a numeral as its parsed value |
| Values.NonNumericZero | app.py:53 | a text holding any character other than a digit, a `.` or a leading sign coerces to 0, and so does the empty text |
| Values.CellString | app.py:30 | `astype(str)` prints a missing value as "nan" and keeps a text. An integer's text coerces back to the integer |
| Values.Digits | app.py:30 | the decimal rendering of a number is a non-empty run of digits worth exactly that number, with no leading zero unless it is the single digit 0 |
| Values.DigitsUnique | app.py:30 | a digit run without a leading zero is the rendering of its own value, so the rendering is the one string with those properties |
| Values.Show | app.py:30 | `str(i)` starts with `-` exactly when `i` is negative, followed by the canonical digits of its magnitude |
| Calendar.Weekday | app.py:38-39 | the weekday number lies in 0..6 |
| Calendar.WeekdayNext | app.py:38-39 | successive days have successive weekdays, with Sunday wrapping to Monday |
| Calendar.WeekdayAnchors | app.py:38-39 | 2024-01-01 is a Monday (0) and 1970-01-01 a Thursday |
| Calendar.DayCellsAgree | app.py:38-41 | a cell has a weekday number exactly when it has a weekday name, and the name is the Monday-first list's entry for the number |
| Calendar.DayNameCell | app.py:37 | a cell gets a day name exactly when it is a date, and then it is the name of its weekday; otherwise it is missing |
| Calendar.DayNumberCell | app.py:38 | a cell gets a day number exactly when it is a date, and then it is its weekday in 0..6; otherwise it is missing |
| Frames.SetColumn | app.py:30 | `df[c] = values` sets column `c` of every row to the given values, overwriting or appending it, and leaves every other column unchanged |
| Frames.Derive | app.py:30-38 | `df[dst] = g(df[src])`: each row's `dst` cell becomes `g` of its `src` cell, `dst` is overwritten or appended, and every other column is unchanged (also line 53) |
| Frames.Fill | app.py:44-46 | `df[c] = x`: every row's cell in `c` becomes `x`, `c` is overwritten or appended, and every other column is unchanged (also lines 56 and 64) |
| Frames.DropMissing | app.py:35 | `dropna(subset=[c])` keeps, in order, exactly the rows whose cell in `c` is present, with their cells unchanged |
| Seqs.Filter | app.py:125 | boolean indexing keeps exactly the elements that pass, and never more of them |
| Seqs.Kept | app.py:122-131 | the positions kept ascend, each holds the corresponding kept row, and they are exactly the positions whose row passes |
| Seqs.FilterThen | app.py:124-131 | filtering by one test and then another equals filtering once by their conjunction |
| Seqs.FilterIdempotent | app.py:122-131 | filtering twice by the same test equals filtering once |
| Filters.FilterView | app.py:122-131 | the filtered table keeps the header and holds the kept rows in their original order |
| Filters.KeepType | app.py:125 | a row passes `isin` exactly when its content type is one of the selected values, so an empty selection passes nothing |
| Filters.KeepDate | app.py:128-131 | a row passes exactly when it has a date within [lo, hi], both ends included. A missing date never passes, and an empty range passes nothing |
| Filters.DateSpan | app.py:105-106 | the earliest and latest dates of a column, skipping missing cells: both occur in the column and bound every date in it. There is no span exactly when the column holds no date |
| Filters.DateFilterOn | app.py:127 | the date filter runs exactly when the checkbox is ticked and the date column has an earliest and a latest date |
| Filters.SliderDefaultKeepsDated | app.py:113-118 | the slider's initial range, from the earliest to the latest date, lets every dated row through |
| Filters.ApplyFilters | app.py:122-131 | the step-by-step type filter and then date filter equal the single selection `FilterView` |
| Filters.KeptRows | app.py:124-131 | a row is kept exactly when its type is selected (unless the type filter is off) and its date lies in [lo, hi] (unless the date filter is off). Kept rows keep their order |
| Filters.AllSelectsEverything | app.py:124 | with "All" selected, the type step is the identity. Without the date filter the table is unchanged |
| Filters.NothingSelected | app.py:124-125 | an empty selection, without "All", empties a table that has a content type column |
| Filters.DatesInRange | app.py:127-131 | with the date filter on, every kept row has a date in [lo, hi], both ends included |
| Filters.FilterTwice | app.py:122-131 | filtering the filtered table again with the same widget values changes nothing |
| Filters.FilterKeepsShape | app.py:122-131 | filtering a loaded table gives a loaded table, and a dated one a dated one |
| Views.KpiValues | app.py:148-151 | the post count is the number of rows, and an empty table has all KPIs zero |
| Views.KpiTotals | app.py:148-151 | on a loaded table, the likes, shares and comments KPIs add up to the total engagement |
| Views.KpiAppend | app.py:148-151 | the KPIs of two tables stacked together are the sums of their KPIs |
| Views.TopPosts | app.py:176 | `nlargest(20)` takes the rows at the positions of a valid ranking (`IsTop`). These are min(20, n) distinct positions, most engaging first with ties in table order, and every position left out ranks below every position taken. Consequently engagement is non-increasing, and no row left out is more engaging than a row taken |
| Ranking.TopIndices | app.py:176 | the positions taken are distinct and ranked by engagement, ties in table order. Every position taken ranks before every position left out |
| Ranking.TopUnique | app.py:176 | only one ranking satisfies `IsTop`, so which rows `nlargest` takes, and their order, are fully determined |
| Ranking.Rank | app.py:176 | every position is ranked, best first |
| Ranking.Insert | app.py:176 | inserting a position into a ranking keeps it ranked |
| Ranking.ArgMax | app.py:287 | `idxmax` gives a position of the maximum value, and every earlier position is strictly smaller |
| Ranking.ArgMaxLeads | app.py:287 | the first of the top rows is the `idxmax` row |
| Views.TopPost | app.py:287 | the top post is a row of the table with the maximum engagement |
| Views.TopPostFirst | app.py:287 | the top post is the first row in table order that reaches the maximum engagement |
| Views.TopPostLeads | app.py:287 | the top post is the first of the top 20 posts |
| Groups.SortedKeys | app.py:216 | the group keys ascend strictly, and are exactly the present values of the key column |
| Groups.BelowTotal | app.py:216 | any two distinct keys are ordered one way or the other |
| Groups.GroupSum | app.py:216 | `groupby(k).sum()`: one group per distinct present key, keys ascending, each group summing the rows with its key. The weekday and content-type views at lines 230 and 249 use the same grouping |
| Groups.GroupSumCover | app.py:216 | the group totals add up to the sum over rows with a key, and to the whole sum when no key is missing |
| Groups.TallyPartition | app.py:230 | tallying over distinct keys sums exactly the rows whose key is one of them |
| Views.DailyTotals | app.py:216 | the daily groups ascend, are exactly the dates present, and each sums the engagement of its day |
| Views.DailyKeys | app.py:216 | on a loaded table, the daily groups are the days that occur, in ascending order, and each sums the engagement of that day's posts |
| Views.DailyCover | app.py:216 | when every row is dated, the daily totals add up to the total engagement |
| Views.WeekdayTotals | app.py:230 | as pandas before 3.0 groups a categorical key (`observed=False`), there are either no groups or seven, Monday to Sunday in order, each summing the engagement of the posts with that day name. Groups exist exactly when some row has a day name |
| Views.WeekdayGroups | app.py:230 | as pandas before 3.0 groups a categorical key (`observed=False`), on a non-empty dated table there are seven groups, Monday to Sunday. Group `w` sums the posts whose weekday number is `w` |
| Views.WeekdayCover | app.py:230 | on a non-empty dated table, the weekday totals add up to the total engagement and to the sum of the daily totals |
| Views.UndatedWeekdays | app.py:230 | on a loaded table without dates there are no weekday groups |
| Views.TypeBreakdown | app.py:249 | the content types of the breakdown ascend and are exactly the present types. Each type's likes, shares and comments sum the rows of that type |
| Views.TypeCover | app.py:249 | when no row lacks a type, the breakdown's likes, shares and comments add up to the KPIs |

## Left out

- The Streamlit interface: page setup, widgets, metrics, messages and charts. `st.warning` and `st.error` messages become `Notice` values returned by the loader.
- `@st.cache_data`: it memoises results and has no logic of its own.
- `pd.read_csv`: the raw table is an input. Every cell is missing, an integer or a text. A boolean metric column (which `read_csv` reads as `bool`, and `astype(int)` turns into 1 and 0) cannot be represented.
- The internals of `pd.to_datetime`: the `parse` parameter stands for them. Times of day and time zones are not modelled. Dates are whole days, and the filter compares whole days, as `.dt.date` does.
- The `except` clause at lines 67-69: its triggers are exceptions inside pandas.
- The average engagement (line 154) and the pie chart's percentages and `value_counts` (lines 198-200): these are floating point or only feed a chart.
- The `melt` reshapes and all plotting.
- The chart guards (column presence and emptiness checks): on a loaded, non-empty filtered table they always hold. The views are modelled as computed.
- Values.ToCount: `pd.to_numeric` is modelled on numerals of the form [sign] digits [. digits]. Exponents and surrounding whitespace are not modelled: such cells coerce to 0 in the model, while pandas reads them as numbers. A cell "inf" (or a numeral too large for a float, such as "1e400") becomes infinity in pandas, `fillna(0)` keeps it, and `astype(int)` then raises, so the handler at lines 67-69 returns the empty table with an error. The model coerces such a cell to 0 and loads the table. The 64-bit width of `astype(int)` is not modelled: integers are unbounded.
- Values.CellString: `astype(str)` of a float key (a CSV column of numbers with missing values) would print a trailing ".0". The model reads integer keys as integers.
- Columns.Lower: only ASCII letters are lower-cased. Python's `lower()` also maps other scripts.
- Loader.LoadData: when two raw names standardise to the same name, the model reads and writes the first such column (`Frames.ColumnIndex`). In pandas, `df[col]` then selects both columns. For a duplicated metric, `pd.to_numeric` of a two-column frame raises a `TypeError`. For a duplicated `post_date`, `pd.to_datetime` of a frame raises a `ValueError`. Either way the handler at lines 67-69 returns the empty table with an error. The model loads the first column instead.
- Views.WeekdayTotals: whether the weekday column is the ordered categorical is modelled as "some row has a weekday name". On a non-empty loaded table this is the same thing. On an empty dated table pandas gives seven groups of 0 and the model none. The seven groups include empty weekdays: that is the `observed=False` default for categorical keys of pandas before 3.0, which the model follows. From pandas 3.0 the default is `observed=True`, and a table lacking some weekday shows only the weekdays that occur; the model does not capture that version.
- Groups.SortedKeys: keys are ordered by kind first (missing, integer, text, date) and then by value, with texts compared by code point. For a column mixing numbers and texts this puts numbers first, as pandas' mixed-key sort does. Dates never share a key column with other kinds in a loaded table.
- Ranking.TopIndices: ties are broken by table order, which is what `nlargest` (keep='first') promises. When the table has no more rows than asked for, pandas instead sorts the whole column with its default unstable sort. So on a filtered table of up to 20 rows with tied engagement, pandas may list a later tied row first. `Views.TopPostLeads` then need not hold for the chart's first bar.
- Filters.DateFilterOn: the checkbox's availability test (datetime dtype, non-empty column, a valid minimum and maximum) is modelled as "there is a date column with at least one date". The slider range is a parameter.
