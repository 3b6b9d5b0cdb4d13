# Departure-compliance check (`pulang_oke`)

This project models the departure-compliance rule of the attendance recap
(`rekap_karyawan_rajin`). For one attendance row, the rule decides whether
the employee left on time. It reads two columns: the scheduled end of the
working day (`Jam_Pulang`) and the check-out scan (`Scan_pulang`). The flag
`pulang_oke` is true only when both are recorded, both parse as a time of
day, and the scan is not earlier than the scheduled end. Every other path
sets the flag to false: a missing value on either side, or a parse error.

Modules:

- `Optional` (`optional.dfy`): `Option`. It stands for a missing key, an NA cell or a raised exception.
- `TimeOfDay` (`time_of_day.dfy`): `Time` = hour, minute, second, as `datetime.time` holds them.
  - `NotAfter` is Python's tuple order on times.
  - `SecondsOfDay` and `FromSeconds` give an independent seconds-since-midnight reading.
- `TimeParse` (`time_parse.dfy`): `ParseTime`, a concrete stand-in for `pd.to_datetime(text).time()`.
  - It accepts `H:MM`, `HH:MM`, `H:MM:SS` and `HH:MM:SS`.
  - Out-of-range fields are rejected, as `datetime.time` rejects them.
  - `None` models the exception pandas raises.
  - `FormatTime` renders what `str()` prints for a `datetime.time`. The two round-trip lemmas connect it with `ParseTime`.
- `Departure` (`departure.dfy`): the row, the two column names, and `PulangOke`.
  - `PulangOke` follows the branch structure of the source: the `pd.notna` guard, the `try` block, and both `False` assignments.
  - `DepartsOnTime` is a reference reading in seconds. The contract of `PulangOke` states that the two agree on every row.
- `Scenarios` (`scenarios.dfy`): concrete rows with a 17:00 scheduled end.

A row is a `map<string, Cell>` with `Cell = Na | Value(text)`. `Present(row, key)` is `pd.notna(row.get(key))`: a missing column and an NA cell both read as absent. The text of a `Value` cell is what `str()` renders for it, since the source parses `str(row[...])`.

Notes on the behaviour as written:

- A missing scheduled end is not a pass; the row fails (`Scenarios.MissingScheduledEndFails`).
- `.time()` keeps seconds, so `08:30:15` is strictly later than `08:30` (`TimeParse.SecondsAreKept`).
- The departure-compliance block (app.py:1-11) has no exemptions. Any exemption for official-business leave or routine days off is decided outside app.py:1-11 (see Left out), so `PulangOke` has none.

## Model

| member | source | states |
|---|---|---|
| Departure.PulangOke | app.py:2-11 | the flag is false when either column is absent or NA; the initial `True` never survives unchecked, since the flag holds iff both values are present, both parse, and the scan is at least the scheduled end in seconds since midnight |
| Departure.Present | app.py:3 | `pd.notna(row.get(key))` holds iff the column exists and its cell is not NA, and then yields that cell's text |
| Departure.TryCompare | app.py:4-9 | the `try` block yields a verdict iff both texts parse, and that verdict is `scan >= scheduled end` |
| Departure.BothParsedDecidesByComparison | app.py:5-7 | with both values present and parsed, the flag equals the comparison `scan >= scheduled end` |
| Departure.UnparseableFails | app.py:4-9 | a value on either side that fails to parse takes the `except` path and gives false |
| Departure.OnTimeScanPasses | app.py:7 | a scan at exactly the scheduled end passes, because the comparison is not strict |
| Departure.LaterScanStillPasses | app.py:7 | a passing row still passes after its scan is replaced by a later parseable scan |
| Departure.OnlyTwoColumnsRead | app.py:3-6 | rows that agree on `Jam_Pulang` and `Scan_pulang` get the same verdict |
| Departure.OtherColumnIgnored | app.py:3-6 | writing any other column leaves the verdict unchanged |
| TimeOfDay.NotAfterIffSeconds | app.py:7 | for valid times, Python's tuple comparison agrees with comparing seconds since midnight |
| TimeOfDay.NotAfterTotalOrder | app.py:7 | the time comparison is reflexive, total, antisymmetric and transitive |
| TimeOfDay.FromSeconds | app.py:5-6 | every seconds-since-midnight value below 86400 is the seconds count of a valid `.time()` value |
| TimeOfDay.FromSecondsOfDay | app.py:5-6 | converting a valid time to seconds and back gives the same time; with `FromSeconds`, valid times and 0..86399 correspond one to one |
| TimeParse.ParseTime | app.py:5-6 | a successful parse needs text of 4 to 8 characters made of two or three colon-separated digit fields (hour of 1-2 digits, minute and second of 2), and yields the valid time those fields spell, with seconds 0 when absent; empty, non-digit or wrongly split text raises |
| TimeParse.ParseHourMinute | app.py:5-6 | `H:MM` or `HH:MM` text parses to that hour and minute with zero seconds, or raises when a field is out of range |
| TimeParse.ParseHourMinuteSecond | app.py:5-6 | `H:MM:SS` or `HH:MM:SS` text parses to that hour, minute and second, or raises when a field is out of range |
| TimeParse.FormatTime | app.py:5-6 | `str()` of a `datetime.time` cell renders eight characters, `HH:MM:SS`; the two round-trip lemmas tie it to the parser |
| TimeParse.ParseFormat | app.py:5-6 | the `str()` text of a valid time parses back to that time |
| TimeParse.FormatParse | app.py:5-6 | eight-character text that parses is exactly the `str()` text of its time |
| TimeParse.SecondsAreKept | app.py:5-6 | `.time()` keeps seconds: `H:MM:SS` with nonzero seconds parses to a time strictly later than `H:MM`, which changes the `scan >= scheduled end` verdict |
| TimeParse.FieldsOfJoin | app.py:5-6 | splitting colon-joined fields recovers the fields; the stand-in parser relies on this |
| Scenarios.ScanAfterEndPasses | app.py:7 | scheduled end 17:00 with scan 17:05 passes |
| Scenarios.ScanBeforeEndFails | app.py:7 | scheduled end 17:00 with scan 16:55 fails |
| Scenarios.ScanAtEndPasses | app.py:7 | scheduled end 17:00 with scan 17:00 passes |
| Scenarios.MissingScanFails | app.py:10-11 | scheduled end 17:00 with an NA scan fails |
| Scenarios.MissingScheduledEndFails | app.py:10-11 | an NA scheduled end fails even with a scan of 17:05 |
| Scenarios.GarbledScanFails | app.py:8-9 | a scan text of `abc` or the empty string fails instead of raising |

## Left out

- `pd.to_datetime` is a foreign library call whose parsing rules are not part of this model.
  - `TimeParse.ParseTime` is a stand-in that accepts only the colon forms listed above.
  - Dates, AM/PM, ISO timestamps, fractional seconds and other pandas forms are rejected by the stand-in. Pandas would accept them.
- TimeParse.ParseTime: the date part that `pd.to_datetime` attaches and `.time()` drops is not modelled, because the stand-in accepts no date.
- Microseconds and `tzinfo` of `datetime.time` are not modelled. The stand-in never produces them.
- The distinct pandas missing values (`None`, `NaN`, `NaT`) are one `Na` cell. Only "present or not" matters to `pd.notna` here.
- `str()` of non-text cells (numbers, timestamps, `datetime.time`) is not modelled. A cell carries its `str()` text directly. `TimeParse.ParseFormat` covers the `datetime.time` case.
- The bare `except:` catches any exception. Only the two parses can raise once the `pd.notna` guard has passed, so only parse failures are modelled.
- The loop that feeds rows to the departure-compliance block, and the definitions of `row` and `pd`, lie outside app.py:1-11. The row is a parameter.
- The rest of the recap is not part of this model, because these rules lie outside the departure-compliance block (app.py:1-11):
  - the other clean-record predicates (lateness, leave flag, leave keywords, absence);
  - the departure exemptions;
  - per-employee aggregation;
  - date-range and attribute filters;
  - department and job-title enrichment;
  - export shaping.
- File upload, spreadsheet I/O and the UI are not modelled.
