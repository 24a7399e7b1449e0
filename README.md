# Date-format sniffer and API probe of the market-research scripts

The repository is a handful of diagnostic scripts around a spreadsheet web
service. Two of them hold logic of their own, and this project models that
logic in Dafny:

- `inspect_data.py` picks a sheet, fetches a block of cells and finds the
  column headed `date`. It prints a guess at the format of the first ten date
  cells, using five regular expressions in a fixed order, first match wins.
  Dates written as `Mon. D` have no year. The script repairs them by appending
  `", <year>"` and checks whether there are any such rows in the whole column.
- `test_api.py` checks that the API key and the spreadsheet id are set. It
  then requests a range and sorts the reply into success, permission denied,
  bad range, generic failure, missing `values` or empty `values`.

Modules:

- `Text` (`text.dfy`): ASCII `\d` and `[A-Za-z]`, ASCII `str.lower`, the
  substring test `x in s`, `str(n)` and Python's slice-bound clamping.
- `SheetsApi` (`sheets_api.dfy`): the three settings, the decoded replies of
  the service, and `get_sheet_names`. That function is identical in both
  scripts, apart from a print.
- `DatePatterns` (`date_patterns.dfy`): the five regular expressions as
  predicates over `string`, and the cascade `Classify`. `re.match` anchors at
  the start only, so rules 1-4 are prefix tests. Rule 5's `$` accepts the end
  of the string, or a position just before one final newline. Each bounded
  repetition such as `\d{1,2}` is an existential over the run length. That is
  exactly the set of strings the backtracking matcher accepts.
- `InspectData` (`inspect_data.dfy`): `add_year_to_dates`, sheet selection
  and the range string, the date-column loop (a method proved equal to a
  function), the report of the first ten rows, `has_abbreviated_dates`,
  `fixed_dates`, and the whole of `fetch_spreadsheet_data` as a method with
  its early returns.
- `TestApi` (`test_api.dfy`): key masking, `full_range`, the reply cascade
  and the whole of `test_api_connection`.

Inputs the scripts read from the outside become parameters:

- the environment settings (`Config`);
- the decoded replies (`SheetsResponse`, `ValuesResponse`);
- the year the clock gives (`clockYear`).

Two points about what the code does, which the model follows:

- The code never tallies verdicts. It reports each of the first ten rows
  separately (`DisplayReports`), and over all rows it computes the flag and
  the repair list (`HasAbbreviatedDates`, `FixedDates`).
- `add_year_to_dates` accepts any string and returns it unchanged unless it
  has the `Mon. D` form.

## Model

| member | source | states |
|---|---|---|
| `DatePatterns.PatternsDisjoint` | inspect_data.py:112-120 | No string matches two of the five patterns. Rules 1-3 put their first separator after the leading digit run, at a different place or with a different character. Rules 4-5 start with letters, ended by a space and by a period respectively. |
| `DatePatterns.ClassifyExact` | inspect_data.py:112-120 | The cascade gives verdict `v` exactly when `v`'s own pattern matches, and `Unrecognized` exactly when none does. So the order of the `elif` chain does not change the result. |
| `DatePatterns.PrefixRulesExtend` | inspect_data.py:112-119 | Rules 1-4 are prefix tests: appending any text to a matching string keeps the match. |
| `DatePatterns.ClassifyIgnoresSuffix` | inspect_data.py:112-119 | A string classified ISO, slash, dot or `Month DD, YYYY` keeps its verdict whatever follows it. |
| `DatePatterns.AbbrevShape` | inspect_data.py:120 | A string matching rule 5 is a run of 3-9 letters, `". "`, a run of 1-2 digits, then the end or one final newline. |
| `DatePatterns.NumericShape` | inspect_data.py:114-117 | A slash or dot date begins with one or two digits followed by its separator. |
| `DatePatterns.MonthNameShape` | inspect_data.py:118 | A `Month DD, YYYY` date begins with 3-9 letters followed by a space. |
| `DatePatterns.IsoShape` | inspect_data.py:112 | An ISO date begins with exactly four digits. |
| `DatePatterns.DigitRun` | inspect_data.py:112-117 | The maximal leading digit run: all digits, and ended by a non-digit or the end. |
| `DatePatterns.LetterRun` | inspect_data.py:118-120 | The maximal leading letter run: all letters, and ended by a non-letter or the end. |
| `DatePatterns.DigitRunIs` | inspect_data.py:112-117 | Any digit run closed by a non-digit is the maximal run, so `\d{1,2}` has no choice to make. |
| `DatePatterns.LetterRunIs` | inspect_data.py:118-120 | Any letter run closed by a non-letter is the maximal run, so `[A-Za-z]{3,9}` has no choice to make. |
| `DatePatterns.EmptyIsUnrecognized` | inspect_data.py:112-120 | `""` matches none of the five patterns. |
| `DatePatterns.DayMonthNameYearIsUnrecognized` | inspect_data.py:112-120 | `"11-Jan-2024"` matches none of the five patterns. |
| `DatePatterns.IsoWithTrailingText` | inspect_data.py:112-113 | `"2024-01-11xyz"` is classified ISO. |
| `DatePatterns.AbbrevExamples` | inspect_data.py:120 | `"Jan. 18"` and `"Jan. 11"` followed by a newline get the missing-year verdict; `"Jan. 123"` is unrecognised. |
| `DatePatterns.Classify` | inspect_data.py:112-120 | The verdict's own pattern matches (for `Unrecognized`: none of the five does). That no other pattern can match as well is `ClassifyExact`. |
| `DatePatterns.IsoPrefix` | inspect_data.py:112 | Rule 1 as a prefix test; a match is at least 10 characters long. Its shape is `IsoShape`. |
| `DatePatterns.SlashPrefix` | inspect_data.py:114 | Rule 2 as a prefix test; a match is at least 8 characters long. Its shape is `NumericShape`. |
| `DatePatterns.DotPrefix` | inspect_data.py:116 | Rule 3 as a prefix test; a match is at least 8 characters long. Its shape is `NumericShape`. |
| `DatePatterns.MonthNamePrefix` | inspect_data.py:118 | Rule 4 as a prefix test; a match is at least 11 characters long. Its shape is `MonthNameShape`. |
| `DatePatterns.AbbrevNoYear` | inspect_data.py:120 | Rule 5, anchored at both ends; a match is 6 to 14 characters long, counting an optional final newline. Its shape is `AbbrevShape`. |
| `InspectData.EffectiveYear` | inspect_data.py:41-42 | No contract of its own: a missing or zero year means the clock's. Its effect on the repair is stated by `RepairChangesIffFlagged`. |
| `InspectData.AddYearToDates` | inspect_data.py:39-47 | The result always starts with the input. |
| `InspectData.RepairChangesIffFlagged` | inspect_data.py:39-47 | The repair changes a string exactly when the cascade gives it the missing-year verdict. Then the result is the string, `", "`, and the effective year (a missing or zero year means the clock's). |
| `InspectData.RepairedIsUnrecognized` | inspect_data.py:45-46 | A `Mon. D` string followed by `", "` and anything matches none of the five patterns. That includes `Month DD, YYYY` (a period follows the month) and `Mon. D` itself. |
| `InspectData.RepairNeverRecognized` | inspect_data.py:45-46 | Whatever year is used, a repaired date is classified `Unrecognized`. |
| `InspectData.RepairIdempotent` | inspect_data.py:45-46 | Repairing a repaired string leaves it unchanged, whatever year the second call gets. |
| `InspectData.RepairExample` | inspect_data.py:45-46 | `"Jan. 11"` with year 2024 becomes `"Jan. 11, 2024"`. |
| `InspectData.SheetToUse` | inspect_data.py:57-67 | The chosen sheet is always one of the sheet names. It is the configured name when that is non-empty and present, and otherwise the first sheet. |
| `InspectData.DateColumnIndex` | inspect_data.py:95-99 | The least index whose header lower-cases to `date`, or -1 exactly when there is none. |
| `InspectData.FindDateColumn` | inspect_data.py:95-99 | The loop with `break` returns exactly `DateColumnIndex` of the headers. |
| `InspectData.DateColumnExample` | inspect_data.py:96-98 | Of `Name`, `DATE`, `date`, the column found is 1. |
| `InspectData.ReportRows` | inspect_data.py:106-134 | One report per row, in order, each the report of that row. |
| `InspectData.DisplayReportsSound` | inspect_data.py:106-134 | There is one report for each of the first `min(len(data), 10)` rows. A row has a sample exactly when it is long enough. The sample holds the cell and its verdict. A repaired form is present exactly for the missing-year verdict; it differs from the cell and is classified `Unrecognized`. |
| `InspectData.ReportRow` | inspect_data.py:106-125 | No contract of its own: one iteration of the display loop. What it reports is stated by `DisplayReportsSound`. |
| `InspectData.DisplayReports` | inspect_data.py:106-125 | No contract of its own: the loop over `data[:10]`. Its bound and its reports are stated by `DisplayReportsSound`. |
| `InspectData.HasAbbreviatedDates` | inspect_data.py:137-138 | No contract of its own: the `any(...)` flag. Its meaning is stated by `HasAbbreviatedDatesIff` and `FixedDatesSound`. |
| `InspectData.HasAbbreviatedDatesIff` | inspect_data.py:137-138 | The flag holds iff some row long enough for the date column has a cell matching rule 5. |
| `InspectData.FixedDates` | inspect_data.py:145-146 | Same length as `data`. A row too short for the column gives `""`; any other row gives its cell through the repair with the current year. |
| `InspectData.FixedDatesSound` | inspect_data.py:137-146 | The fix changes exactly the flagged rows. So the flag holds iff the fix changes some row, and no entry of the fix list lacks its year. |
| `InspectData.BatchExample` | inspect_data.py:137-146 | For `2024-01-11`, `Jan. 18`, `Feb. 25` the flag holds. The fix list is `2024-01-11`, `Jan. 18, 2024`, `Feb. 25, 2024`. |
| `InspectData.FetchSpreadsheetData` | inspect_data.py:49-162 | See "How `FetchSpreadsheetData` ends" below the table. |
| `SheetsApi.Titles` | inspect_data.py:33-34 | The titles in sheet order, one per sheet, or none at all when some sheet has no title (the lookup raises). |
| `SheetsApi.GetSheetNames` | test_api.py:20-35 | `[]` without both credentials or on a non-200 reply; otherwise the sheet titles in order (`[]` if one is missing). |
| `TestApi.MaskKey` | test_api.py:50 | No contract of its own: the printed form of the key. Its shape is stated by `MaskKeyShape`. |
| `TestApi.MaskKeyShape` | test_api.py:50 | The masked key is the first `min(n, 5)` characters, `...`, and the last `min(n, 5)` characters. A key of five characters or fewer appears in full on both sides. |
| `TestApi.MaskKeyExample` | test_api.py:50 | `ABCDEFGHIJKLMNOP` is shown as `ABCDE...LMNOP`, and `abc` as `abc...abc`. |
| `TestApi.FullRange` | test_api.py:57-63 | The range is the bare `A1:G100` exactly when no sheet names came back, so no sheet-qualified range equals it. With sheet names it is the first name, `!`, and `A1:G100`. |
| `TestApi.Succeeded` | test_api.py:43-141 | No contract of its own: the `True`/`False` that `test_api_connection` returns. When it holds is stated by `ConnectionOutcome`. |
| `TestApi.ClassifyReply` | test_api.py:74-124 | No contract of its own: the branches on status, body and `values`. Each outcome's condition is stated by `ReplyCases`. |
| `TestApi.ReplyCases` | test_api.py:74-137 | Success iff status 200 and a non-empty `values`, reporting `len(values) - 1` rows. Permission denied iff 403 with `PERMISSION_DENIED` in the body. Bad range iff 400 with `Unable to parse range`. Generic failure for every other non-200 reply. Missing or empty `values` otherwise. |
| `TestApi.PermissionDeniedExample` | test_api.py:79 | A 403 body containing the marker selects the permission branch; a 403 body without it is a generic failure. |
| `TestApi.TestApiConnection` | test_api.py:37-141 | No contract of its own: the whole test. Its outcomes are stated by `ConnectionOutcome`. |
| `TestApi.ConnectionOutcome` | test_api.py:37-141 | See "How `ConnectionOutcome` ends" below the table. |
| `Text.Contains` | test_api.py:79-96 | No contract of its own: the substring tests on the body. Its meaning is stated by `ContainsIff`. |
| `Text.NatToString` | inspect_data.py:46 | `str(n)` for `n >= 0`: one or more decimal digits, a single digit below 10 and no leading zero from 10 up. |
| `Text.IntToString` | inspect_data.py:46 | `str(year)`: non-empty, a leading `-` exactly for a negative number, digits everywhere else, with no leading zero. The digits after the sign read back as the absolute value of the number, so the text is the canonical decimal form. |
| `Text.SliceBound` | test_api.py:50 | Python's clamping of a slice bound: within `0..n`, a negative bound counts from the end, an out-of-range bound is clamped. How it shapes the masked key is stated by `MaskKeyShape`. |
| `Text.ContainsIff` | test_api.py:79 | The left-to-right scan for `x in s` holds iff `x` occurs at some position of `s`. |
| `Text.NatToStringRoundTrip` | inspect_data.py:46 | Reading back the digits of `str(n)` gives `n`. |
| `Text.Lower` | inspect_data.py:97 | Same length; every character mapped through ASCII lower-casing. |

How `FetchSpreadsheetData` ends:

- It returns no-sheet-names exactly when `get_sheet_names` gives `[]`.
- Otherwise the range is the chosen sheet followed by `!A1:G100`.
- A non-200 values reply is a fetch failure with that status.
- Missing or empty `values` means no data.
- Headers with no `date` column give no-date-column.
- Otherwise:
  - the headers followed by the data rows make up `values`;
  - the column is `DateColumnIndex` of the headers;
  - the result holds the first-ten report, the flag, and the fix list, which
    is computed only when the flag holds.

How `ConnectionOutcome` ends:

- A missing key ends the test before anything else, whatever the id.
- A missing id ends it next.
- With both present:
  - the key is shown masked;
  - the range is the bare `A1:G100` exactly when `get_sheet_names` gives `[]`
    (no credentials, a non-200 metadata reply, no or empty `sheets`, or an
    entry without a title);
  - otherwise the range is the first sheet name, `!` and `A1:G100`.
- The test succeeds iff both are present, the status is 200 and `values` is
  non-empty. It then reports `len(values) - 1` rows.
- Every non-200 reply fails.

## Left out

- The HTTP requests, JSON decoding and the `try`/`except` around them. The decoded status, body and `values` are parameters. A body that fails to decode becomes an exception in the scripts, and that path is not modelled. The one exception modelled is the `KeyError` of a sheet without a title.
- `pd.to_datetime` and the parsed-count report (inspect_data.py:127-132 and 148-159). This is a foreign date parser. The model stops at the repaired strings.
- `datetime.now().year`: passed in as `clockYear`. `fetch_spreadsheet_data` reads the clock in two places, and the model assumes both reads give the same year.
- `load_dotenv`/`os.getenv`: the settings are a `Config` value. The `.env` existence check (test_api.py:150-158) and all of `simple_test.py` are left out: they are filesystem and environment access.
- `input()` and `webbrowser.open` (test_api.py:89-95 and 100-106): interactive I/O. The outcome of those branches does not depend on them.
- `advanced_styling.py` and `style_examples.py`: probes of an external table-rendering library, with no logic of their own.
- All printed text, including the first data row and the `SHEET_NAME=` hint on success (test_api.py:127-135). `data[:10]` is modelled only as the bound on the per-row report.
- Unicode: `\d` is modelled as ASCII digits and `str.lower` as ASCII lower-casing. Python's `\d` also matches other decimal digits, and its `lower` maps non-ASCII letters. No non-ASCII character lower-cases to a letter of `date`, so the date-column search is unaffected.
- Header or cell values that are not strings: the service returns strings.
- `InspectData.AddYearToDates`: its own contract states only that the input is a prefix of the result. The full behaviour is stated by `InspectData.RepairChangesIffFlagged`.
