# Shipping and sales dashboard pipeline, modelled in Dafny

This project models the data pipeline behind a supply-chain dashboard. The
pipeline takes raw shipment rows and a sales sheet and produces cleaned
tables. From those tables it derives delivery and sales KPIs, breakdowns,
top-10 lists and an e-mail report. It also models the filters the dashboard
applies before computing KPIs, and how a cloud file link is turned into a
file id and a download URL.

The modules follow the program's structure:

- `Records`, `Numbers`, `Sheets`: the shared data model.
  - A shipment is a record of optional fields.
  - A cell is blank, a timestamp (a day number counted from 1970-01-01), a number or text.
  - A status is one of Advanced, Late, On Time, Not Due or some other raw text.
  - A sales frame is a sheet of labelled columns.
  - Rounding to one or two decimals is written out exactly (half up).
  - The dashboard's `replace(0, 1)` denominator guard is written out too.
- `Extractor`: `_clean_main_data`, `_clean_sales_data` and the naming and metadata parts of `save_extracted_data`.
- `FixDates`: the repair in `fix_dates.py`. The status rewrite is done in place on an `array`.
- `Frames`, `Kpis`, `Breakdowns`, `SalesQueries`, `Processor`: `DataProcessor` and its mixin methods.
  - `Processor.DataProcessor` is a class whose two table fields the methods update.
- `Filters`: the date window, `apply_filters_to_data`, the filter summary, and the preset store (a class).
- `Cloud`: deriving the id and URL in `load_from_google_drive`, and the order in which `load_cloud_data` prefers its configuration sources.
- `Seqs`, `Sorting`, `Groups`, `Text`: generic selection, stable sorting, `nlargest`, `quantile`, `groupby` keys and string order.

pandas behaviour the pipeline depends on is modelled explicitly:

- `errors='coerce'` turns unreadable values into missing ones.
- A `groupby` lists its keys in sorted order and drops missing keys. Sales-sheet keys are text; see "## Left out".
- `sum` skips missing values.
- A caught exception returns an empty table or dictionary. This is the `None` or empty result of the model's functions.

Text parsing by `pd.to_datetime` and `pd.to_numeric`, and whether those calls raise, are oracles. They are passed in as a `Readers` value.

## Model

| member | source | states |
|---|---|---|
| Records.DateCell | utils/data_processor_final.py:71-77 | a parsed day is stored as a timestamp cell that reads back as that day |
| Records.SerialDayExamples | fix_dates.py:24-28 | the spreadsheet epoch 1899-12-30 is day -25569; serial 25569 is 1970-01-01 and serial 45839 is 2025-07-01; pandas' timestamps run from day -106751 to day 106751 |
| Records.ParseStatus | utils/data_extractor.py:153-155 | reading raw status text keeps its spelling: the status's name is the text read |
| Records.ParseStatusName | utils/data_extractor.py:153-155 | reading a status back from its name gives the same status |
| Records.StandardColumn | utils/data_processor_final.py:71-77 | a coerced datetime column has one cell per input cell, only timestamps and missing values, and each day is the parser's reading of that cell |
| Records.SerialColumn | utils/data_extractor.py:131 | the serial-day conversion yields a datetime column whose days are 1899-12-30 plus each numeric value, or NaT where that day is outside pandas' timestamp range |
| Records.NumericCell | utils/data_extractor.py:148 | numeric coercion yields only numbers or missing values and leaves numbers and blanks as they are |
| Records.DeriveDelays | utils/data_extractor.py:140-145 | `Delay_Days` is the day difference on every row when both date columns are datetime, and 0 on every row when the subtraction raises |
| Records.CountStatus | utils/data_processor_final.py:128-137 | a status count never exceeds the number of rows |
| Records.TallyCounts | utils/data_processor_final.py:128-137 | the one-pass tally agrees with the independent count of each status, and its total is the number of rows with a status |
| Records.TallyKnown | utils/data_processor_final.py:128-137 | the tally's total is the known-status rows plus the rows filed under another status |
| Numbers.Round1Close | utils/data_processor_final.py:134 | one-decimal rounding stays within 0.05 of the exact value |
| Numbers.Round2Close | utils/data_processor_final.py:152-153 | two-decimal rounding stays within 0.005 of the exact value |
| Numbers.NonZero | utils/data_extractor.py:199 | `replace(0, 1)` never yields 0 and leaves any other denominator unchanged |
| Numbers.GuardedPercent | utils/data_extractor.py:199 | the guarded percentage times a nonzero denominator is the numerator times 100; a zero denominator yields the numerator times 100 |
| Numbers.GuardedQuotient | utils/data_processor_with_ious.py:26-28 | the guarded percentage is the plain quotient times 100 whenever the denominator is not 0 |
| Numbers.Percent | utils/data_processor_final.py:131-137 | a count's share of a positive total, times the total, is the count times 100, and lies in [0, 100] for a count within the total |
| Numbers.GuardedIsPercent | utils/data_processor_final.py:217-229 | for a positive total the guard never fires, so a guarded rate is the exact share |
| Numbers.RateBounds | utils/data_processor_final.py:131-137 | a rounded rate lies in [0, 100] and within 0.05 of the exact share |
| Numbers.LateRateAnchor | verify_late_rate.py:33-43 | 8,706 late shipments out of 24,521 give a late rate of 35.5 |
| Extractor.ConvertDateColumn | utils/data_extractor.py:119-133 | a datetime column is skipped; otherwise the standard parse is used, the serial reading only when that raises, and the column is unchanged when both raise; no other column changes, and the result is datetime exactly when a conversion succeeds |
| Extractor.CleanMain | utils/data_extractor.py:111-157 | the cleaned table is no longer than the raw one; every row has one of the four known statuses and a numeric or missing quantity |
| Extractor.CleanMainData | utils/data_extractor.py:111-157 | the cleaning, with the date loop run as a loop, yields the cleaned table |
| Extractor.CleanMainSurvivors | utils/data_extractor.py:114-115 | the survivors are exactly the raw rows with a known status, in order, with their other columns unchanged |
| Extractor.CleanMainIds | utils/data_extractor.py:150-155 | surviving ids rise strictly down the table, so they are distinct; they lie in 1..n for n the rows past the header filter, and may have gaps |
| Extractor.DatedTyped | utils/data_extractor.py:119-133 | after the date loop both columns are datetime exactly when both conversions succeed |
| Extractor.CleanMainDelays | utils/data_extractor.py:140-145 | when both dates convert, every surviving row's delay is its day difference; otherwise every delay is 0 |
| Extractor.ParseDates | utils/data_extractor.py:135-138 | parsing `Date1` and `Date2` keeps every row and the columns the cleaning keeps |
| Extractor.ParseKeepsShipDates | utils/data_extractor.py:135-145 | parsing `Date1` and `Date2` leaves both ship dates and the status as they were, so the delays are unaffected |
| Extractor.ConvertKeepsOtherDates | utils/data_extractor.py:117-133 | converting a ship-date column leaves `Date1` and `Date2` as they were |
| Extractor.ParsedOtherDate | utils/data_extractor.py:135-138 | after the `Date1`/`Date2` loop each cell of a column whose parse does not raise is its standard parse |
| Extractor.CleanMainOtherDates | utils/data_extractor.py:135-138 | where the parse of `Date1` or `Date2` does not raise, each surviving row's cell is the standard parse of its raw cell |
| Seqs.Replace | utils/data_extractor.py:186 | a rename relabels every column with the old label and no other; the same replacement turns a character into another in a sheet name |
| Extractor.RenamedAt | utils/data_extractor.py:183-186 | each label after the loop has visited n positions is the one the position rule gives, by induction on n |
| Extractor.RenameByPosition | utils/data_extractor.py:162-186 | with distinct labels, an unnamed column at position i < 17 takes the i-th mapped name and every other column keeps its own |
| Extractor.RenameEach | utils/data_extractor.py:183-186 | the renaming loop yields the labels the position rule gives |
| Extractor.CoerceColumn | utils/data_extractor.py:190-192 | coercing one column changes only that column's cells, each to its numeric reading |
| Extractor.CoerceColumns | utils/data_extractor.py:188-192 | after the loop every named column holds only numbers and blanks, and every other column is unchanged |
| Extractor.CoerceEach | utils/data_extractor.py:188-192 | the coercion loop yields the coerced sheet |
| Extractor.CleanSalesData | utils/data_extractor.py:159-201 | sales cleaning, with its two loops, yields the cleaned sheet |
| Extractor.CleanSales | utils/data_extractor.py:194-195 | cleaning keeps the sheet well formed and never adds rows |
| Extractor.DropEmptyKeeps | utils/data_extractor.py:194-195 | `dropna(how='all')` keeps the rows that are not wholly missing, in order: a subsequence, each with a value, holding every row with a value, as many as the rows less the empty ones |
| Extractor.SalesVsTargetWritten | utils/data_extractor.py:197-199 | with `Sales` and `Target` present each row gets the achievement cell of its own figures; every other cell is unchanged |
| Extractor.CleanSalesRows | utils/data_extractor.py:159-201 | the cleaned rows are exactly the coerced rows that are not wholly missing, in order, each with its achievement cell and every other cell as coerced |
| Extractor.CleanSalesNumeric | utils/data_extractor.py:188-192 | every numeric sales column of the cleaned sheet holds only numbers and blanks |
| Extractor.CleanSalesPct | utils/data_extractor.py:197-199 | the achievement cell is a number exactly when Sales and Target are, and then lies within 0.05 of Sales / Target × 100, or of Sales × 100 when Target is 0 |
| Extractor.SafeSheetName | utils/data_extractor.py:219 | the file-name form replaces each space and hyphen by `_` and keeps every other character |
| Extractor.SalesFileName | utils/data_extractor.py:219-220 | a sales file name starts with `sales_` and holds no space or hyphen after it |
| Extractor.SafeSheetNameIdempotent | utils/data_extractor.py:219 | sanitising a sanitised name changes nothing |
| Extractor.SafeSheetNameCollides | utils/data_extractor.py:218-220 | "TOP 10" and "TOP-10" map to the same file, so one sheet overwrites the other |
| Extractor.SheetNamed | utils/data_extractor.py:230 | a sheet lookup by name finds one exactly when some sheet has that name |
| Extractor.MetadataCounts | utils/data_extractor.py:224-231 | the saved shipping count is the number of raw rows with a known status; the sheet names are the sales workbook's, in order; the sales count is the `Data` sheet's rows, or 0 without one |
| Extractor.FirstNamed | utils/data_extractor.py:230 | a lookup by name finds the first sheet of that name |
| FixDates.RepairColumn | fix_dates.py:21-31 | a numeric column is read as serial days after 1899-12-30 and raises exactly when one serial's timedelta or day is outside pandas' range; any other column goes through the standard parse, which may raise |
| FixDates.RaisedStays | fix_dates.py:21-31 | once a conversion has raised, the later columns cannot undo it |
| FixDates.RederivedStatus | fix_dates.py:52-55 | a missing ship date gives Not Due; otherwise the delay's sign decides; a row without a delay keeps its status |
| FixDates.MarkStatus | fix_dates.py:52-55 | a masked write sets the status of exactly the rows the mask selects and changes nothing else |
| FixDates.RewriteStatuses | fix_dates.py:52-55 | the four writes in source order, later ones winning, give each row its re-derived status |
| FixDates.ConvertEach | fix_dates.py:21-31 | the conversion loop stops at the first column that raises and otherwise converts each column |
| FixDates.FixShippingDates | fix_dates.py:18-55 | the repair's steps, run in turn, yield the repaired table or the raise |
| FixDates.RelabelRows | fix_dates.py:46-55 | recomputing the delays and rewriting the statuses in an array yields each row relabelled |
| FixDates.RepairedColumns | fix_dates.py:21-31 | each date column is repaired on its own, independently of the other, and the repair goes through exactly when both columns convert |
| FixDates.SerialColumnsRepaired | fix_dates.py:24-28 | after a repair that goes through, every serial of a numeric date column was in range and the column ends as 1899-12-30 plus each value in days |
| FixDates.OutOfRangeSerialRaises | fix_dates.py:28 | one serial outside pandas' range makes the whole repair raise |
| FixDates.RepairConsistent | fix_dates.py:46-55 | every repaired row's delay is its day difference and its status follows it; a shipped row without a requested date keeps its original status; the length is kept |
| FixDates.RepairKeepsStatuses | fix_dates.py:21-31 | converting dates never touches a status |
| FixDates.RelabelIdempotent | fix_dates.py:46-55 | relabelling a relabelled row changes nothing |
| Records.ParseColumn | utils/data_processor_final.py:71-77 | parsing a date column replaces it with its parsed cells, or leaves the table unchanged when the parse raises; other columns are untouched |
| Frames.ParseEachSteps | utils/data_processor_final.py:71-77 | loading parses the four date columns one after another, in order |
| Frames.ParseColumnKeeps | utils/data_processor_final.py:71-77 | parsing one date column leaves every other date column and the status as they were |
| Frames.ProcessOtherDates | utils/data_processor_final.py:71-77 | where the parse of `Date1` or `Date2` does not raise, loading leaves each of its cells as its standard parse |
| Frames.ProcessDatesDelays | utils/data_processor_final.py:65-87 | when both ship-date columns parse, every row keeps its status and its delay becomes the day difference of its parsed dates, whatever `Date1` and `Date2` hold |
| Frames.ValidateShrinks | utils/data_processor_final.py:99-101 | duplicate removal keeps one copy of each distinct row, the first, in the order of first occurrence, and is idempotent |
| Seqs.DedupOrder | utils/data_processor_final.py:101 | `drop_duplicates` keeps elements in the order of their first occurrences |
| Frames.ValidateKeepsNumberedRows | utils/data_processor_final.py:99-101 | rows carrying the extractor's distinct ids are never removed |
| Kpis.KpisStatusRates | utils/data_processor_final.py:108-137 | without shipments every figure keeps its default; otherwise the total is the rows with a status and each rate is its count's rounded share, in [0, 100] and within 0.05 of exact |
| Kpis.TallyAllKnown | utils/data_processor_final.py:128-130 | when every status is one of the four, every row is counted |
| Kpis.RatesSum | verify_shipping_performance.py:168-181 | four counts making up a total have shares summing to 100, and rounded rates summing to within 0.2 of it |
| Kpis.KpisRatesSum | verify_shipping_performance.py:168-181 | on a table of known statuses, the total is the row count and the four rates sum to 100 up to rounding |
| Kpis.SalesTotalsOf | utils/data_processor_final.py:146-156 | the sales step sets the rounded column sums, sets achievement only for a positive target, and raises when a column cannot be summed |
| Kpis.KpisSales | utils/data_processor_final.py:146-172 | sales figures keep their defaults without the columns or when summing raises; the worst category is then also left at "N/A" |
| Kpis.CategoryLateRate | utils/data_processor_final.py:158-167 | a category's late rate lies in [0, 100] |
| Kpis.WorstCategoryOf | utils/data_processor_final.py:158-167 | the worst category is a category of some row, carries its own late rate, no category has a higher one, and every category before it in sorted order has a strictly lower one (`idxmax` picks the first of those tied) |
| Kpis.KpisWorstCategory | utils/data_processor_final.py:158-167 | the same holds for the KPI dictionary when the sales step does not raise, including the tie-break towards the first category in sorted order |
| Kpis.KpisAverageDelay | utils/data_processor_final.py:140-144 | with late rows genuinely late, the average delay is at least 0, and at least 1 once some late row has a delay |
| Kpis.KpisDelayMean | utils/data_processor_final.py:140-144 | the average delay is 0 without late delays, and otherwise within 0.05 of the mean delay of the late rows |
| Breakdowns.GroupRowOf | utils/data_processor_final.py:217-229 | a key's line counts its rows, is never 0, and carries the rounded late share |
| Breakdowns.BreakdownLines | utils/data_processor_final.py:208-275 | a breakdown is empty exactly when there are no rows or none is late; otherwise there is one line per key, sorted descending |
| Breakdowns.TimeSeriesDays | utils/data_processor_final.py:174-206 | the days increase, so none repeats, and once the dates are datetime every day with a dated, statused row is listed; each day carries its rows' status counts and, exactly when some dated row is late, its rounded late share |
| Breakdowns.TimeSeriesCovers | utils/data_processor_final.py:184-193 | every dated, statused row's day is a day of the series once the dates can be grouped |
| Breakdowns.DayLine | utils/data_processor_final.py:184-200 | a day's rows in the dated table are its rows in the whole table, at least one, with a late rate in [0, 100] |
| Breakdowns.LateDated | utils/data_processor_final.py:184-199 | some dated row is late exactly when some row with a ship date is late |
| Breakdowns.AddToLookup | utils/data_processor_final.py:329-336 | adding a value to one pivot cell changes only that cell and the grand total, by that value |
| Breakdowns.PivotCellIsGroupSum | utils/data_processor_final.py:315-340 | without rows, or when a summed `Quantity` column holds text or timestamps (the sum raises), the pivot is empty; otherwise each pivot cell is the sum over its group, and an empty cell reads 0 |
| Breakdowns.PivotTotal | utils/data_processor_final.py:315-340 | without rows, or when a summed `Quantity` column cannot be summed, the pivot is empty; otherwise its cells add up to the measure over every fully labelled row |
| Breakdowns.TopByLateRate | utils/data_processor_final.py:374-378 | only products at or above the 10th-percentile size are ranked: exactly min(n, eligible) of them, drawn from the eligible products (a sub-multiset), largest rate first, none left out ranks higher, and the list is non-empty when n > 0 |
| Breakdowns.SomeSizeable | utils/data_processor_final.py:376-377 | some product always reaches the 10th-percentile size |
| Breakdowns.TopByLateCount | utils/data_processor_final.py:370-371 | at most n products, most late first, and none left out has more |
| Breakdowns.TopByQuantity | utils/data_processor_final.py:372-373 | at most n products, largest quantity first, and none left out has more |
| Breakdowns.TopOtherMetric | utils/data_processor_final.py:379-380 | any other metric gives the first n products |
| SalesQueries.ChannelAchievement | utils/data_processor_final.py:299-302 | a channel's achievement is sales over target as a percentage within 0.05, and sales × 100 when the target is 0 |
| SalesQueries.ChannelGuards | utils/data_processor_final.py:277-313 | the channel table is empty without a sheet, `Channel` or `Sales`, or when a measure cannot be summed |
| SalesQueries.ChannelLines | utils/data_processor_final.py:288-296 | on every sheet with `Channel` and `Sales` whose measure columns can be summed, each channel with a row gets exactly one line, in sorted order, whose sales are the sum over its rows |
| SalesQueries.Clip | utils/data_processor_final.py:408-411 | clipping lands in [0, 100] and keeps values already there |
| SalesQueries.AccuracyPerfect | utils/data_processor_final.py:405-411 | accuracy lies in [0, 100], is 100 exactly when sales meet the target, and is 0 once the miss reaches the target |
| SalesQueries.AccuracySumBounds | utils/data_processor_final.py:405-414 | n accuracies sum to a value in [0, 100 n] |
| SalesQueries.MeanAccuracy | utils/data_processor_final.py:414 | a category's mean accuracy lies in [0, 100] |
| SalesQueries.ForecastInRange | utils/data_processor_final.py:386-418 | every listed accuracy lies in [0, 100] and is within 0.05 of the mean clipped accuracy of its category's rows with a positive target and sales; each listed category has such a row; the series is empty when a guard fails, and otherwise every category of such a row is listed |
| SalesQueries.IouLinesCover | utils/data_processor_with_ious.py:16-20 | every (Category, Channel) pair of a row has its line |
| SalesQueries.IouLinesFromRows | utils/data_processor_with_ious.py:16-20 | every line is its own pair's line, and that pair comes from some row |
| SalesQueries.IouPct | utils/data_processor_with_ious.py:26-28 | the IOU percentage is IOUs over sales, with a zero sales sum read as 1, rounded |
| SalesQueries.IouTable | utils/data_processor_with_ious.py:6-37 | the IOU table is sorted by IOU sum, largest first; it is empty without a sheet or when a needed column is missing or cannot be summed, and otherwise has one line per distinct pair of the rows and nothing else |
| SalesQueries.ChangePctSign | utils/data_processor_with_ious.py:52-55 | the change percentage is 0 without a positive base; otherwise it has the change's sign and times the base is the change × 100 |
| SalesQueries.ComparisonTotals | utils/data_processor_with_ious.py:68-74 | the rounded overall change is 0 without a positive base, positive only when sales grew, and never negative when they did |
| SalesQueries.RoundedChangePct | utils/data_processor_with_ious.py:72 | rounding keeps the change percentage's sign |
| SalesQueries.ChannelChangeFigures | utils/data_processor_with_ious.py:63-66 | a channel's change is sales minus yesterday's, and its percentage divides by yesterday's with 0 read as 1 |
| SalesQueries.ComparisonFigures | utils/data_processor_with_ious.py:39-78 | the comparison's change percentage has the sign of the total change and is 0 without a positive base |
| SalesQueries.ComparisonChannels | utils/data_processor_with_ious.py:58-66 | the comparison has one line per channel, in sorted order |
| SalesQueries.LowestPositive | utils/data_processor_with_ious.py:108-113 | bottom performers are ten rows of the sheet, or all positive ones if fewer, each with a positive achievement |
| SalesQueries.LowestAscending | utils/data_processor_with_ious.py:109-111 | bottom performers run smallest first |
| SalesQueries.LowestIsBottom | utils/data_processor_with_ious.py:109-111 | no positive row left out is smaller than one kept |
| SalesQueries.HighestDescending | utils/data_processor_with_ious.py:86-90 | the top list holds ten rows with a number, or all of them if fewer, largest first, and no row left out is larger than one kept |
| SalesQueries.LevelCountsOf | utils/data_processor_with_ious.py:93-96 | each level's count is its number of late shipments, and is positive |
| SalesQueries.TopLateRanked | utils/data_processor_with_ious.py:93-97 | ten levels, or every level with a late shipment if fewer, each with its late count, most late first, and no level left out has more |
| SalesQueries.Alerts | utils/data_processor_with_ious.py:131-141 | at most one alert: critical exactly above 40, warning exactly in (35, 40], none at 35 or below |
| Processor.GrowthSheet | utils/data_processor_with_ious.py:101 | writing `Growth` keeps every row and column and sets each row's growth to sales minus yesterday's |
| Processor.GrowthKeepsOthers | utils/data_processor_with_ious.py:101 | writing `Growth` changes no other column, and the new column can be ranked |
| Processor.GrowthIdempotent | utils/data_processor_with_ious.py:100-101 | computing `Growth` again leaves the sheet as the first time did |
| Processor.Top10Keys | utils/data_processor_with_ious.py:80-120 | each of the four top-10 entries is present exactly when its source column or table is |
| Processor.Top10Lists | utils/data_processor_with_ious.py:87-113 | every sales list has at most ten entries |
| Processor.Top10Late | utils/data_processor_with_ious.py:93-97 | the late list names ten levels, or every level with a late shipment if fewer, most late first, each with its count; no level left out has more |
| Processor.Top10Effect | utils/data_processor_with_ious.py:85-119 | the sales table changes only by the `Growth` column, and the column stays even when a later list raises; a header-only sales sheet with `Sales` makes `nlargest` raise to `{}` before `Growth` is written |
| Processor.Top10Repeatable | utils/data_processor_with_ious.py:100-101 | running the query again leaves the sales table as the first run did |
| Processor.ReportAlerts | utils/data_processor_with_ious.py:131-141 | the report alerts exactly when the late rate is over 35, critically over 40 |
| Processor.ReportSummaries | utils/data_processor_with_ious.py:143-150 | the category summary is the first min(5, n) lines of the category analysis and the worst plants the first min(3, n) lines of the plant performance: highest rate first, none left out worse |
| Processor.DataProcessor.constructor | utils/data_processor_final.py:15-23 | a new processor holds no tables |
| Processor.DataProcessor.LoadProcessedData | utils/data_processor_final.py:25-63 | loading stores the read tables, with dates parsed and duplicates removed; a failed read stores an empty table |
| Processor.DataProcessor.ProcessDates | utils/data_processor_final.py:65-87 | the loop over the four date columns changes only the shipment table, to its parsed form with delays derived |
| Processor.DataProcessor.ValidateData | utils/data_processor_final.py:89-104 | validation changes only the shipment table, to its deduplicated form |
| Processor.DataProcessor.CalculateKpis | utils/data_processor_final.py:106-172 | the KPIs filled in step by step are the KPIs of the held tables |
| Processor.DataProcessor.Top10Analysis | utils/data_processor_with_ious.py:80-120 | the top-10 query returns the dictionary and leaves the `Growth` column behind, as the value model says |
| Processor.DataProcessor.GenerateEmailReport | utils/data_processor_with_ious.py:122-156 | the report is built from the held tables |
| Filters.ShipDays | components/filters.py:39-46 | the ship days are exactly the days of the timestamped ship dates |
| Filters.DateRangeFromData | components/filters.py:36-65 | from the data, the window ends at the latest ship date, starts no earlier than the earliest, spans the data for "All Time" and at most N days otherwise, and ignores the clock |
| Filters.ApplyFiltersToData | components/filters.py:164-181 | the date step, then one narrowing per column in a loop, yields the rows every step keeps |
| Filters.FilterRowsMembers | components/filters.py:168-179 | a row is kept exactly when it lies in the window and every constraining column allows it |
| Filters.FilterRowsSubsequence | components/filters.py:166-181 | the result keeps the input's order and only its rows |
| Filters.FilterRowsIdempotent | components/filters.py:164-181 | applying the same filters again changes nothing |
| Filters.FilterRowsConjunction | components/filters.py:176-179 | filtering by one set and then another is filtering once by both |
| Filters.NoConstraintKeepsAll | components/filters.py:178 | empty lists and absent columns keep every row |
| Filters.PassesEvery | components/filters.py:177-179 | passing the loop of filters is being allowed by each one |
| Filters.AllTimeKeepsDated | components/filters.py:48-51 | "All Time" from the data keeps exactly the rows with a ship date, whatever today is |
| Filters.FilteredKpis | app.py:231-247 | KPIs on the filtered rows count the kept rows with a status and carry the unfiltered sales figures |
| Filters.NatTextValue | components/filters.py:195 | a count's text reads back as the count |
| Filters.CreateFilterSummary | components/filters.py:183-200 | the summary collected in a loop is the joined parts |
| Filters.SummaryNoFilters | components/filters.py:197-200 | the summary reports no filters exactly when there is no date range and every list is empty |
| Filters.FilterPartShape | components/filters.py:192-195 | a longer list shows "column: k selected" with k its length |
| Filters.PresetRoundTrip | components/filters.py:202-214 | loading a preset just saved gives back its filters, leaves other presets alone, and an unknown name gives no filters |
| Filters.PresetStore.constructor | components/filters.py:204-205 | a new store holds no presets |
| Filters.PresetStore.SaveFilterPreset | components/filters.py:202-208 | saving records the filters under the name |
| Filters.PresetStore.LoadFilterPreset | components/filters.py:210-214 | loading returns the saved filters, or none for an unknown name |
| Cloud.TrimEnd | cloud_data_loader.py:65 | `rstrip` keeps the longest prefix that does not end in a dropped character |
| Cloud.TrimStart | cloud_data_loader.py:55 | `lstrip` keeps the longest suffix that does not start with a dropped character |
| Cloud.Strip | cloud_data_loader.py:55 | the result is a contiguous piece of the input with only whitespace before and after it, and neither starts nor ends with whitespace |
| Cloud.StripIdempotent | cloud_data_loader.py:55 | stripping twice is stripping once |
| Cloud.Find | cloud_data_loader.py:63-65 | `find` returns the first match, and none when there is no match |
| Cloud.BeforeCharFree | cloud_data_loader.py:65 | cutting at a character leaves none of it behind |
| Cloud.FileTargetStripsFirst | cloud_data_loader.py:55 | surrounding whitespace makes no difference to the id or URL |
| Cloud.SheetsTarget | cloud_data_loader.py:58-67 | a Sheets URL yields as id the start of the text after the first `/d/`, up to the first `/`, `?` or `&`, with only `-` or `/` dropped before that cut; the id has none of `/`, `?`, `&`, does not end in `-` or `/`, and gets its xlsx export URL |
| Cloud.BareIdTarget | cloud_data_loader.py:75-80 | a bare id loses trailing dashes and slashes, is stripped again, and is tried as a Sheet |
| Cloud.SharedSheetTarget | test_google_sheets.py:11 | the shared Sheets link yields its id and the xlsx export URL |
| Cloud.DriveRetry | cloud_data_loader.py:83-92 | a first download that succeeds is the result; otherwise the Drive URL is tried exactly when the id does not start with `http`, and a Drive link retries the same URL |
| Cloud.SourcePrecedence | cloud_data_loader.py:148-194 | `data_files` shadows the root keys and prefers URLs, then base64, drive ids, file ids; at root, file ids come before inline data |
| Sorting.LargestIsTop | utils/data_processor_with_ious.py:87 | `nlargest(n)` gives at most n elements, largest first, from the input, none left out larger |
| Sorting.Quantile | utils/data_processor_final.py:376 | with h = (n - 1) q, the quantile lies between the sorted values at positions ⌊h⌋ and ⌊h⌋ + 1 (equal to the one at ⌊h⌋ when that is the last), and so between the smallest and the largest value |
| Sheets.ColumnSum | utils/data_processor_final.py:148-150 | a column sum exists exactly when the column is there and holds only numbers and blanks |

## Left out

- Reading and writing files is left out: `pd.read_excel`, `read_csv`, `to_csv` and `json.dump`. The tables read are parameters, and a read failure is `None`.
- Logging and `print` are not modelled.
- Streamlit widgets and session state are not modelled.
  - The date option and the custom start and end dates are parameters.
  - Today's date is a parameter.
  - Session state is the `Filters.PresetStore` object.
- HTTP requests, base64 decoding and Excel decoding are left out. A download is a parameter function returning `None` on failure. `get_cloud_file_paths` and `save_cloud_data_locally` are not part of this model.
- The synthetic-date branch of `fix_dates.py` (random timestamps) is left out. Only the rows' repair without it is modelled.
- `fix_dates.py` also converts `Requested_Delivery_Date` when the table has it. The extractor's table has no such column, so that branch is not modelled.
- Extractor.CleanMain: where the standard parse of `Date1` or `Date2` raises, the source's cleaning stops with that error; the model keeps the column as read.
- Records.SerialDate: the boundary days of pandas' timestamp range are approximated (1677-09-21 counts as out of range and 2262-04-11 as in), and a serial's fraction of a day is not weighed against the timedelta bound.
- FixDates.RepairColumn: the same boundary approximation as `Records.SerialDate` applies to the raise on an out-of-range serial.
- Sheets.KeyOf: sales-sheet `groupby` keys are text only. A row whose key cell is a number or a timestamp is dropped from every sales `groupby`, while pandas would group it under that value; pandas drops only missing keys.
- Filters.ColumnText: allowed filter values are text, so a numeric or datetime cell (a numeric `Month`, say) never matches, where pandas' `isin` could match it against a number.
- The shipment table always carries every column the extractor writes. The branches for an absent shipment column are not modelled:
  - `Planning_Level` or `Delivery_Status` missing in `get_top_products`;
  - the `'Delivery_Status' in df.columns` guard in `fix_dates.py`.
- The warning `_validate_data` logs for a missing column is left out.
- `str.strip` is modelled as removing the six ASCII whitespace characters: space, `\t`, `\n`, `\x0b`, `\x0c` and `\r`. Python also strips `\x1c`-`\x1f`, `\x85` and the Unicode spaces; those are not modelled.
- The date text in the filter summary is passed in already formatted.
- Times of day are not modelled: every timestamp is a whole day.
- Python's `round` rounds halves to even and works on binary floats. The model rounds halves up on exact reals, so every rounding lemma is stated as a 0.05 (or 0.005) bound.
- Summing a column that holds text or timestamps is taken to raise. pandas may instead concatenate text.
- `sort_values` is not stable. The model sorts stably, so lines with equal keys may appear in another order in the source.
- The time series lists only days that have rows. The empty days pandas would show after unstacking are not listed.
- In the filters, a non-datetime `Actual_Ship_Date` makes `.dt` raise. The model treats such cells as outside the window instead.
- The report's timestamp comes from the clock in the source; here it is a parameter. The report's channel summary is the channel table, with no further lemma.
- `load_processed_data` also reads the pivot, calculation, reference, filter and top-10 frames. Only the shipment and sales tables are modelled.
- Breakdowns.TopByLateRate: without products, pandas' quantile of an empty column is NaN and the source returns an empty table. The model returns the empty list directly.
