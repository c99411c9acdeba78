# Solar PR/GHI reconciliation and summary, in Dafny

`script.py` reads two folders of daily CSV files. PR files hold the plant's
Performance Ratio, in percent. GHI files hold Global Horizontal Irradiance.
The script merges the two into one series keyed by date and plots the PR
against a budget curve that falls year by year. The chart carries a 30-row
moving average, a colour per point for its GHI, the share of points above
budget, and a box of trailing-window and lifetime averages.

This project models that computation. It proves what the script promises
about the merged series and about every derived quantity.

- `option.dfy` (`Opt`): the `Option` type. A missing measurement (pandas
  NaN/None) is `None`.
- `stats.dfy` (`Stats`): sums and means over the present values, and counting
  and filtering by a predicate. These are what `.mean()` with NaN skipping,
  boolean masks and `.sum()` of a mask compute.
- `ingest.dfy` (`Ingest`): `preprocess_data`.
  - Each file contributes one value: the first present numeric cell in
    row-major order.
  - The values are merged into a date-keyed dictionary with one slot per
    category. `Dict.order` keeps Python's insertion order of the keys.
  - The dictionary becomes rows, which are sorted by date.
  - `AcceptedDate` is the date a file is stored under, or None when the
    `try` block raises first.
  - `PreprocessData` is a method. Its loops mirror the script's loops, and
    it is proved against the fold functions `IngestFolder`/`IngestFolders`
    (script.py:11-32) and `Rows` (script.py:34-36).
- `derive.dfy` (`Derive`): the data computed in `plot_pr_graph`.
  - the rolling mean, the budget (`get_budget`) and the colour (`get_color`);
  - the above-budget count, with the ratio or "N/A";
  - the title dates and the trailing (`avg`) and lifetime averages.
  - `DerivePoints` adds the derived columns to each row (script.py:59-76).
    `WindowRows` selects a window's rows and `TrailingAverage` averages
    them, which together are `avg` (script.py:124).
- `pipeline.dfy` (`Pipeline`): the `__main__` block, i.e.
  `plot_pr_graph(preprocess_data())`.

Conventions:
- Dates are day numbers counted from 1970-01-01, so 2019-07-01 is day 18078.
- PR, GHI and the budget are exact reals.
- The date parse `datetime.strptime(name, "%Y-%m-%d")` is a parameter of
  type `string -> Option<int>`. It gives `None` where the parse raises.
- Reading a CSV file is a given outcome: its numeric columns as a table, or
  `Unreadable` where `read_csv` raises.

Some points where a natural reading of the script differs from the code.
The model follows the code in each:
- A one-row table has a 7-day average. The only row's date exceeds
  `anchor - 7 days`, so the average is that row's PR (`Derive.SingleRowWindow`).
- An undefined window average is formatted with `:.1f`, which prints `nan`,
  not "N/A". The model keeps it as `None` and leaves formatting out.
- Budget steps are 365-day periods counted from 2019-07-01, not calendar
  years. 2020 is a leap year, so the first step down falls on 2020-06-30.
- A readable, date-named file with no numeric cell still creates its date.
  The date's row then holds None for that category, and None for the other
  too when no other file covers the date (`Ingest.IngestFile`,
  `Ingest.MergedGhiNone`).

## Model

| member | source | states |
|---|---|---|
| Ingest.FirstPresent | script.py:22-24 | Within one row: None exactly when every cell is missing, otherwise a present cell with no present cell before it |
| Ingest.ExtractValue | script.py:22-24 | A file's value is None exactly when no numeric cell is present; otherwise it is a present cell with every earlier cell, in row-major order, missing |
| Ingest.Put | script.py:26-29 | `setdefault(date, {})[c] = v` adds the date to the keys, overwrites the slot for c, and keeps the other slot (None for a new date). Other dates are unchanged. A new date is appended to the insertion order. Every key still appears in the order exactly once |
| Ingest.IngestFile | script.py:17-32 | If the name fails the date parse or the read raises, the dictionary is unchanged. Otherwise the file was read, and its date gets the extracted value (possibly None) in its category's slot. The other slot is kept (None for a new date), every other date's entry is kept, and a new date is appended to the insertion order |
| Ingest.IngestFolderValid | script.py:13-32 | Ingesting a folder keeps every key in the insertion order exactly once |
| Ingest.IngestFoldersValid | script.py:11-32 | The merged dictionary lists every key exactly once in its insertion order |
| Ingest.IngestFolderKeys | script.py:13-32 | A folder adds exactly the dates of its accepted files to the keys |
| Ingest.IngestFolderOtherSlot | script.py:26-29 | A folder never changes the other category's slots. Dates it creates hold None there |
| Ingest.IngestFolderUntouched | script.py:17-32 | A date under which no file of the folder is accepted keeps its entry, or its absence |
| Ingest.IngestFolderLastWrite | script.py:26-29 | Last write wins: the slot holds the value of the last file accepted under that date, even when that value is None |
| Ingest.IngestFoldersKeys | script.py:11-32 | The merged keys are exactly the dates of the accepted files of all folders |
| Ingest.MergedPrLastWrite | script.py:11-29 | A date's PR is the value of the last PR file accepted under it, None included |
| Ingest.MergedGhiLastWrite | script.py:11-29 | A date's GHI is the value of the last GHI file accepted under it, None included |
| Ingest.MergedPrNone | script.py:11-36 | A merged date under which no PR file is accepted has no PR |
| Ingest.MergedGhiNone | script.py:11-36 | A merged date under which no GHI file is accepted has no GHI |
| Ingest.Insert | script.py:43 | Inserting a row adds exactly that row to the multiset of rows |
| Ingest.SortByDate | script.py:43 | Sorting is a permutation of the rows |
| Ingest.SortByDateAscending | script.py:43 | The sorted rows keep the length and ascend by date, strictly when no two rows share a date |
| Ingest.SortSortedIsIdentity | script.py:43 | Sorting a strictly ascending table leaves it unchanged |
| Ingest.RowsOfValid | script.py:34-36 | The rows built from the dictionary have distinct dates. Each row carries its key's GHI and PR. Every key has a row, and there are no rows exactly when the dictionary is empty |
| Ingest.SortedRows | script.py:34-43 | The sorted rows are strictly ascending, one per key, each equal to that key's GHI and PR, and empty exactly when the dictionary is |
| Ingest.MergedEmpty | script.py:38-40 | The merged dictionary is empty exactly when no file of either folder is accepted |
| Ingest.PreprocessData | script.py:8-49 | The loops compute the fold of the PR then the GHI folder, sorted. The result is strictly ascending, has one row per key of the merged dictionary, and each row holds that date's GHI and PR. It is empty exactly when no file was accepted |
| Stats.Mean | script.py:126 | The mean is undefined exactly for no values |
| Stats.MeanBetween | script.py:126 | A mean lies between bounds that hold for every value |
| Stats.PresentValues | script.py:124-126 | Skipping missing values keeps exactly the present ones. It is empty exactly when all are missing, and full length exactly when none is |
| Stats.PresentValuesMultiset | script.py:124-126 | Skipping missing values keeps each present value exactly as many times as it occurs |
| Stats.PresentMeanBetween | script.py:124-126 | A mean that skips missing values lies between bounds on the present values |
| Stats.CountWhere | script.py:79 | The count of a mask is at most the length. It is 0 exactly when no element matches, and the full length exactly when all do |
| Stats.Filter | script.py:78 | Masking keeps exactly the matching elements. Its length is their count |
| Stats.FilterMultiset | script.py:78 | A mask keeps each matching element exactly as many times as it occurs, and no other element |
| Stats.FilterAll | script.py:124 | A mask every element passes keeps the whole sequence |
| Stats.CountWhereFilter | script.py:78-79 | Counting p within the q-mask counts p over all rows when p implies q (`valid_df` then `>`) |
| Stats.CountWhereMonotone | script.py:124-125 | A weaker predicate never counts fewer elements |
| Derive.Years | script.py:64 | The step count is 0 before the first 365 days have passed. From 2019-07-01 on, the date lies in step `years` |
| Derive.Budget | script.py:61-65 | The budget is positive and never above 73.9 |
| Derive.BudgetFirstStep | script.py:61-65 | Every date before 2019-07-01 + 365 days has the budget 73.9 |
| Derive.BudgetInStep | script.py:61-65 | In step n the budget is 73.9 · 0.992^n |
| Derive.BudgetConstantInStep | script.py:61-65 | The budget is constant within each 365-day step |
| Derive.BudgetNonIncreasing | script.py:61-65 | The budget never rises as the date advances |
| Derive.BudgetStepDown | script.py:61-65 | Each new step multiplies the budget by 0.992, a strict fall |
| Derive.BudgetMilestones | script.py:109-111 | The 1Y/2Y/3Y legend values are the budget of the first three steps (before rounding) |
| Derive.ColourOf | script.py:69-74 | Each of the five colours is chosen exactly on its GHI interval: missing, <2, [2,4), [4,6), ≥6. Boundaries go to the higher bucket |
| Derive.ColourMonotone | script.py:69-74 | A higher GHI never gets a lower bucket |
| Derive.RollingMean | script.py:59 | The rolling mean is defined exactly from position 29 on, when all 30 PR values of the window are present |
| Derive.RollingMeanBetween | script.py:59 | A defined rolling mean lies between bounds on its window's PR values |
| Derive.RollingMeanOfConstant | script.py:59 | With every PR equal to c, the rolling mean is undefined at positions 0–28 and exactly c from 29 on |
| Derive.RollingMeanLocal | script.py:59 | The rolling mean at position i reads only the PR values at positions i−29..i, by position and not by date |
| Derive.DerivedPointLocal | script.py:59-76 | Point i depends only on row i and the PR of the 29 rows before it, so two tables that agree there give the same point i |
| Derive.AboveBudget | script.py:78-80 | "N/A" is chosen exactly when no point has a PR. Otherwise total is the number of points with a PR, above is the number whose PR is strictly above budget, and 0 < total and above ≤ total |
| Derive.AboveShare | script.py:117 | The above-budget share is a fraction in [0, 1] |
| Derive.AboveBudgetExample | script.py:78-80 | PR 80, 70, 73.9 and 60 against a budget of 73.9 give 1/4 = 0.25; equality is not above |
| Derive.MaxDate | script.py:123 | `df['Date'].max()` is a date of the table and no row is later |
| Derive.MinDate | script.py:92 | `df['Date'].min()` is a date of the table and no row is earlier |
| Derive.MeanPR | script.py:126 | The lifetime average is undefined exactly when no row has a PR |
| Derive.LifetimeBounded | script.py:126 | The lifetime average lies between bounds that hold for every PR value |
| Derive.WindowRowsMembers | script.py:124 | A row is in a window exactly when it is in the table and its date is after anchor − days |
| Derive.WindowsNested | script.py:124-125 | The windows are nested: a shorter window's rows are among a longer window's, and no more numerous |
| Derive.AnchorInEveryWindow | script.py:123-124 | The row at the maximum date is in every window of at least one day |
| Derive.TrailingAverageBetween | script.py:123-125 | A trailing average is defined exactly when a row of its window has a PR, and it then lies between bounds on all PR values |
| Derive.TrailingAverageDefined | script.py:123-124 | A trailing average is defined exactly when a row dated after the anchor minus the window has a PR |
| Derive.WholeHistoryWindow | script.py:124-126 | A window reaching past every row gives the lifetime average |
| Derive.SingleRowWindow | script.py:123-124 | With one row, every window of at least one day averages to that row's PR |
| Derive.PlotPrGraph | script.py:52-58 | No chart exactly for the empty table (the early return) |
| Derive.SortedPoints | script.py:57-59 | The points of the sorted table ascend by date and their rows are a permutation of the table: each row occurs as often as in the table |
| Derive.ChartPoints | script.py:52-59 | A non-empty table gets a chart whose points ascend by date and whose rows are a permutation of the table |
| Derive.AboveBudgetOfRows | script.py:78-119 | Over a table's points, "N/A" is chosen exactly when no row has a PR |
| Derive.SummaryOfRows | script.py:92-126 | The title dates are dates of the table that bound every row. The annotation is "N/A" exactly when no point has a PR, and otherwise counts the points with a PR and those strictly above budget. The lifetime average is undefined exactly when no row has a PR |
| Derive.SummaryWindowsDefined | script.py:123-125 | Each of the 7, 30, 60, 90 and 365-day averages is defined exactly when a row dated after the last date minus the window has a PR |
| Derive.SummaryBetween | script.py:123-126 | Every defined average of the summary box, lifetime included, lies between bounds that hold for every PR value |
| Derive.ChartSummary | script.py:52-126 | For the chart of any non-empty table, whatever its row order: the title dates are dates of the table and bound every point. The annotation is "N/A" exactly when no row has a PR, and otherwise counts the points with a PR and those strictly above budget. The lifetime average is undefined exactly when no row has a PR |
| Derive.NoPRIsOrderFree | script.py:58 | Whether any row has a PR does not depend on the row order |
| Derive.PlotOfAscendingTable | script.py:57-76 | On a strictly ascending table the re-sort changes nothing. Point i carries row i with the rolling mean at i, its date's budget and its GHI's colour, and the title runs from the first row's date to the last's |
| Derive.AscendingEnds | script.py:92 | In a strictly ascending table the first row has the least date and the last row the greatest |
| Pipeline.PointsOfIngestedTable | script.py:34-43 | Points that carry the ingested rows in order ascend strictly by date, one per merged key, each with that key's GHI and PR |
| Pipeline.Run | script.py:155-157 | No chart exactly when no file was accepted. Otherwise the chart has one point per accepted date, strictly ascending, each carrying the merged GHI and PR of its date. The chart is exactly what the plotting step computes for the ingested table, so every fact proved about PlotPrGraph (derived columns, title dates, annotation, window averages) holds of it |

## Left out

- Walking the folders and the `.csv` suffix filter (script.py:11-16). A folder is given as the sequence of its files, in walk order, with every `.csv` removed from each name, as `file.replace` does (script.py:18).
- Parsing CSV text and pandas' dtype inference (`read_csv`, `select_dtypes`, script.py:21-22). A readable file is given as its numeric columns, cell by cell. `to_numeric(..., errors='coerce')` on numbers is the identity, and so are the column conversions at script.py:44-45.
- The leniency of `strptime` (script.py:19). The parse is a parameter.
- `pd.to_datetime` (script.py:57). Dates are day numbers throughout.
- Writing `combined_data.csv` and every `print` diagnostic (script.py:32, 39, 47-48, 54, 152).
- Everything matplotlib draws: figure, scatter, lines, legend, texts, `savefig`, the window-manager fallbacks and `show` (script.py:83-113, 120, 128-152). The model returns the data handed to it.
- Rounding and string formatting: `round(..., 1)`, `:.1f` and `:.1%` (script.py:110-111, 117, 129-134).
- IEEE floating point. All values are exact reals, so float rounding in the means and in 0.992^n is not modelled.
- Ingest.SortByDate: it is an insertion sort, which is stable. pandas' default sort is not stable, but that only matters for rows sharing a date, and the ingested rows never share one (Ingest.SortedRows).
