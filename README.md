# Retail data uploader — a Dafny model

The uploader reads a day's retail records from a MySQL table (or from an
Excel sheet), checks each record against the reporting rules, logs into the
regulator's HTTP service and posts the records, and keeps a history of every
run. A Qt window holds the mapping from database columns to API fields and
the API field lists; a scheduler runs the same pipeline on a timer and counts
its successes and failures.

The model covers:

- `utils/validator.py`: the per-record rule chain and the batch check
  (module `Validator`, with `Dates` for `strptime`/`strftime` on `%Y-%m-%d`);
- `db_utils.py`: table-name checks, the `SHOW TABLES` fallback, the query text,
  the normalisation of row values, and the connection object (`DbUtils`);
- `retail_api.py`: login, token handling and the upload (`RetailApi`);
- `gui.py`: the worker thread's run and its history writes (`Pipeline`,
  `History`), the Excel import (`ExcelImport`), the table-mapping tab
  (`TableMapping`) and the API-configuration tab (`ApiConfig`);
- `scheduler.py` and `main.py`: the scheduled job and its statistics
  (`Scheduler`).

Python values are modelled on their own terms:

- `PyText`: whitespace, `strip`, `replace`, `zfill`, `str(int)` and `join`.
- `PyDict`: dicts with last-wins assignment and insertion order.
- `Values`: the dynamically typed record values, with Python truthiness.

The server's answers, the database's contents and faults, the files' contents
and the clock are parameters of the operations. Methods that change state
are proved against the functions that specify them. The lemmas then state
what the program promises about those functions.

## Model

| member | source | states |
|---|---|---|
| Validator.FirstMissing | utils/validator.py:8-26 | none reported exactly when every required field is present and truthy; otherwise a field's Chinese name |
| Validator.ValidateRecord | utils/validator.py:6-48 | passes exactly when the record meets every rule, stated independently of the chain; a failure has a message; a missing field gives its "不能为空" message; a TypeError escapes exactly when all fields are present and reportDate is not a string |
| Validator.FirstMissingAt | utils/validator.py:24-26 | the reported field is the first absent or falsy one in the dict's order |
| Validator.ZeroValueIsEmpty | utils/validator.py:25 | a zero or False dataValue is reported as empty, before the type and range rules |
| Validator.ZeroTypeIsEmpty | utils/validator.py:25 | a zero or False dataType is reported as empty, before the date is parsed |
| Validator.DateCheckedBeforeType | utils/validator.py:29-46 | a bad date is reported even when dataType is bad too |
| Validator.TrueIsAcceptedDataType | utils/validator.py:34-37 | True passes isinstance(int) and is in [1, 2, 3, 4] |
| Validator.ValidateBatch | utils/validator.py:51-63 | the loop returns the failing records with their messages in input order, or the TypeError of a record |
| Validator.FailuresAreFailingRecords | utils/validator.py:55-61 | every reported failure is an input record together with the message it fails with |
| Validator.FailingRecordsAreReported | utils/validator.py:55-61 | every failing input record is reported with its message |
| Validator.FailuresOfAppend | utils/validator.py:55-61 | the failures of a concatenation are the failures of both parts, in order |
| Validator.FailuresBounded | utils/validator.py:51-63 | no more failures than records; none for an empty batch |
| Validator.RevalidatingFailuresIsStable | utils/validator.py:51-63 | validating the failed records again gives the same failures |
| Dates.DaysInMonth | utils/validator.py:31 | every month has 28 to 31 days |
| Dates.StrpTime | utils/validator.py:31 | an accepted text is a valid calendar date |
| Dates.FormatDate | db_utils.py:177-178 | a formatted date is ten characters with dashes at 4 and 7 |
| Dates.FormatThenParse | db_utils.py:177-178 | parsing a formatted date gives the same date back |
| Dates.FormatDateInjective | db_utils.py:177-178 | different dates format to different texts |
| Dates.UnpaddedDateAccepted | utils/validator.py:31 | "2024-1-5" is accepted as 5 January 2024 |
| Dates.NoThirtiethOfFebruary | utils/validator.py:31 | "2024-02-30" is refused |
| DbUtils.DefaultTableIsSafe | db_utils.py:136-138 | retail_data passes the table-name check |
| DbUtils.OnlyUnderscoresUnsafe | db_utils.py:136 | a name made only of underscores is refused |
| DbUtils.ConfiguredTable | db_utils.py:133-138 | the table used is always safe; it is the configured name when that is safe, otherwise retail_data |
| DbUtils.ExistingTableIsShown | db_utils.py:147-148 | SHOW TABLES LIKE finds an existing table |
| DbUtils.UnderscoreIsWildcard | db_utils.py:147-148 | `_` in LIKE matches any character: retail_data is "found" when only retailXdata exists |
| DbUtils.ResolvedTable | db_utils.py:147-150 | the table queried is safe and is the configured one or retail_data; it stays the configured one exactly when SHOW TABLES finds it |
| DbUtils.Projection | db_utils.py:153-158 | one projection entry per mapping pair, in order; report_date is reformatted |
| DbUtils.QueryStartsWithItemId | db_utils.py:160-163 | the query begins with SELECT and the itemId column |
| DbUtils.QueryEndsWithTodayFilter | db_utils.py:164-166 | the query ends with the table and the filter on CURDATE() |
| DbUtils.MappedFieldsAppearVerbatim | db_utils.py:154-163 | every mapping pair appears in the query as `<db> as <api>` |
| DbUtils.LPad | db_utils.py:162 | LPAD gives exactly n characters; on short digit strings it is zfill |
| DbUtils.DbItemIdInjective | db_utils.py:162 | below a million, different ids on one day give different itemIds |
| DbUtils.DbItemIdCollides | db_utils.py:162 | LPAD truncates: ids 1000000 and 1000001 share an itemId |
| DbUtils.NormalizeValue | db_utils.py:176-182 | well-formed values stay well-formed |
| DbUtils.NormalizeValueMeaning | db_utils.py:176-182 | a datetime becomes a string that parses back to its date; a Decimal becomes the float of its value; anything else is kept |
| DbUtils.NormalizeRow | db_utils.py:175-183 | a processed row has the same keys |
| DbUtils.NormalizeRows | db_utils.py:173-183 | one processed row per fetched row, in order |
| DbUtils.NormalizeRowsKeepsShape | db_utils.py:173-183 | same number of rows and the same keys; each value is normalised |
| DbUtils.NormalizeRowsIdempotent | db_utils.py:173-183 | processing processed rows changes nothing |
| DbUtils.EmptyMappingNeverQueries | db_utils.py:140-142 | an empty field mapping sends no statement and ends in an exception |
| DbUtils.FailureAfterCursorYieldsEmpty | db_utils.py:188-190 | an execute or select failure gives an empty list |
| DbUtils.CheckIgnoresMappedTable | db_utils.py:103-116 | the existence check looks at retail_data only, even when the mapping names another table that exists |
| DbUtils.DatabaseConnection.constructor | db_utils.py:8-24 | the parameters are kept; not connected; nothing executed |
| DbUtils.DatabaseConnection.Connect | db_utils.py:79-88 | connects unless refused; never disconnects; sends no statement |
| DbUtils.DatabaseConnection.CheckTableExists | db_utils.py:96-121 | the outcome and the statements sent, as the specification function gives them |
| DbUtils.DatabaseConnection.GetRetailData | db_utils.py:123-191 | the rows or the exception, and the statements sent, as the specification function gives them |
| DbUtils.BuildFieldList | db_utils.py:153-158 | the loop builds the projection |
| DbUtils.ProcessRow | db_utils.py:175-183 | the inner loop builds the normalised row |
| DbUtils.ConvertValue | db_utils.py:177-182 | the branches give the normalised value |
| DbUtils.ProcessRows | db_utils.py:173-183 | the outer loop builds the normalised rows |
| RetailApi.GrantedToken | retail_api.py:40 | the token is "Bearer " followed by the answer's token text |
| RetailApi.TokenAfterLogin | retail_api.py:37-48 | an accepted login replaces the token; any other answer keeps it |
| RetailApi.UploadResult | retail_api.py:90-97 | HTTP 200 gives the parsed body; anything else gives None |
| RetailApi.UploadIgnoresEnvelopeCode | retail_api.py:90-93 | a 200 answer with an error code is returned as it is |
| RetailApi.TokensAreBearer | retail_api.py:40 | any token obtained by a sequence of logins starts with "Bearer " |
| RetailApi.FailedLoginKeepsToken | retail_api.py:43-58 | a failed login after others keeps the earlier token |
| RetailApi.TrailingSlashesIgnored | retail_api.py:6 | trailing slashes of the base URL make no difference |
| RetailApi.UploadVerdict | gui.py:111 | accepted exactly for a dict whose code is 200; raises exactly for a truthy non-dict; None is rejected |
| RetailApi.ItemFault | gui.py:114 | an item reads without error exactly when it is a dict with soureId, code and msg |
| RetailApi.FirstItemFault | gui.py:113-114 | no fault exactly when every item reads |
| RetailApi.ContentFaultOf | gui.py:113-114 | when the content loop raises, by the type of `content` |
| RetailApi.RetailAPI.constructor | retail_api.py:5-8 | base URL without trailing slashes, the upload path, no token, nothing sent |
| RetailApi.RetailAPI.Login | retail_api.py:14-58 | the result is acceptance; the token follows TokenAfterLogin; one form POST is sent |
| RetailApi.RetailAPI.Upload | retail_api.py:60-101 | without a token nothing is sent and None is returned; records `json` cannot serialise make the post raise before anything is sent, and None is returned; otherwise one JSON POST with the token, and the answer's result |
| RetailApi.PostedResult | retail_api.py:79-101 | None for records that cannot be serialised, whatever the server would answer; otherwise the answer's result |
| RetailApi.UnwritableValueFailsUpload | retail_api.py:79-101 | one date, datetime, Decimal, timedelta, bytes or set value anywhere in the records makes the upload return None |
| History.TimestampText | gui.py:42 | nineteen characters: the formatted date, a space, and colons at 13 and 16 |
| History.TimestampKeepsTime | gui.py:42 | the time of day is read back from the timestamp |
| History.Prepended | gui.py:51-54 | the new entry first, then the old entries, at most 100 |
| History.NewestFirst | gui.py:51-54 | two saves put the later entry first and the earlier second |
| History.SavesStayCapped | gui.py:51-54 | never more than 100 entries, and no fewer than the saves made, up to 100 |
| History.LatestSavesComeFirst | gui.py:51-54 | after up to 100 saves, entry k is the k-th most recent save |
| History.HistoryFile.constructor | gui.py:26-61 | the file holds its initial state |
| History.HistoryFile.Save | gui.py:26-61 | the file after one save of the timestamped entry; a non-list file, or one that cannot be opened for writing, stays as it was; the copies at gui.py:1654-1689 and 2361-2399 leave the file in the same state; the MainWindow copy also has a default source tag and refreshes its history view |
| Pipeline.OneEntryUnlessEarlyExit | gui.py:76-146 | a run writes one history entry except on the five early exits; a crash records 0 rows and 失败; a failed upload records str(result) |
| Pipeline.StagesRunInOrder | gui.py:76-106 | reaching validation, the data check or the upload needs an accepted login, an accepted connection and retail_data found |
| Pipeline.SuccessNeedsCode200 | gui.py:111-122 | success is recorded only for rows that can be serialised, a dict answer with code 200, and with the number of rows fetched |
| Pipeline.UnserialisableRowsFail | gui.py:109-133 | valid rows holding a value `json` cannot write are recorded as an upload failure with None, whatever the server would answer |
| Pipeline.FetchedRowsSerialisable | db_utils.py:175-183 | the processed rows can be serialised exactly when no fetched column holds a `datetime.date` or another value the driver returns and the loop leaves unchanged (a `timedelta` for TIME, `bytes` for BLOB/BINARY/VARBINARY, a `set` for SET) |
| Pipeline.SavedConfigurationCrashes | gui.py:82 | a database entry with a `type` key (written by save_config, gui.py:274-300) makes every run after a login crash |
| Pipeline.EmptyMappingCrashes | gui.py:92 | an empty field mapping makes a run that passes the table check crash |
| Pipeline.GrantedTokenIsPresent | gui.py:76-110 | after an accepted login the upload is never refused for want of a token |
| Pipeline.Run | gui.py:63-146 | the outcome of WorkerThread.run; the history gets the run's entry, or is unchanged |
| Pipeline.Stages | gui.py:64-134 | the try body, each raised exception turned into a crash outcome |
| PyDict.Lookup | gui.py:1223-1227 | the value of the last pair with the key, absent exactly when no pair has it |
| PyDict.LookupAt | gui.py:1223-1227 | a pair not followed by one with the same key is what its key looks up |
| PyDict.Put | gui.py:1227 | keys stay distinct; an existing key keeps its place; a new one goes last |
| PyDict.PutLookup | gui.py:1227 | the assigned key gets its value; other keys keep theirs |
| PyDict.FromPairs | gui.py:1223-1227 | the built dict has distinct keys |
| PyDict.FromPairsMeaning | gui.py:1223-1227 | every key looks up the last value given to it; keys in first-appearance order |
| PyDict.FromDistinctPairs | gui.py:990-994 | pairs with distinct keys are their own dict |
| ExcelImport.HeadersDistinct | gui.py:1494-1514 | the rename table's Chinese headers are distinct |
| ExcelImport.ApiFieldsDistinct | gui.py:1494-1514 | its API fields are distinct |
| ExcelImport.ApiFieldsAreNotHeaders | gui.py:1494-1514 | no API field is also a Chinese header |
| ExcelImport.Swapped | gui.py:1517 | the reverse table swaps each pair |
| ExcelImport.CleanHeader | gui.py:1488 | a cleaned header has no line breaks and no whitespace at either end |
| ExcelImport.CleanHeaderIdempotent | gui.py:1488 | cleaning twice is cleaning once |
| ExcelImport.RenamedTo | gui.py:1530 | a column is renamed to an API field exactly when it is that field's Chinese name or already the API name |
| ExcelImport.Columns | gui.py:1488-1530 | one column per header |
| ExcelImport.ChineseNameAt | gui.py:1517 | the reverse lookup gives each API field its Chinese header |
| ExcelImport.SuppliedColumn | gui.py:1530-1536 | an API field is a column exactly when some header supplies it |
| ExcelImport.MissingNameAt | gui.py:1536-1542 | a field's Chinese name is reported exactly when no header supplies it |
| ExcelImport.MissingNamesAreHeaders | gui.py:1536-1542 | only the table's Chinese names are reported |
| ExcelImport.MissingNamesExactly | gui.py:1536-1542 | the report lists exactly the unsupplied fields' Chinese names |
| ExcelImport.ItemIdInjective | gui.py:1556 | two rows share an itemId only with the same index and date, for any number of rows |
| ExcelImport.ItemIdMatchesDatabase | gui.py:1556 | below a million rows the itemId is the one the database query builds |
| ExcelImport.ItemIds | gui.py:1556 | one itemId per row, all distinct |
| ExcelImport.WithItemId | gui.py:1556 | the itemId column is present and no column is lost |
| ExcelImport.ImportData | gui.py:1478-1583 | a read failure, the refusal naming missing fields (never empty), a conversion error, or the failure at `self.data_table`, which the tab does not have, each exactly when its condition holds |
| ExcelImport.TemplateHeader | gui.py:1711-1724 | the template's headers end with ")" |
| ExcelImport.HintedHeaderSuppliesNothing | gui.py:1488 | a header ending in ")" supplies no field after cleaning |
| ExcelImport.HintedTemplateRefused | gui.py:1536-1542 | a sheet whose headers all carry the template's hints is refused with every field missing |
| ExcelImport.UnsuppliedRefused | gui.py:1536-1542 | one unsupplied field is enough for the refusal |
| TableMapping.Description | gui.py:1177-1181 | the description is "" or that of a default mapping for the API field |
| TableMapping.DescriptionIn | gui.py:1177-1181 | the first matching entry's description, found whenever there is a match |
| TableMapping.DefaultRows | gui.py:589-620 | one row per default mapping |
| TableMapping.RowsOf | gui.py:953-964 | one row per stored field |
| TableMapping.PyIndex | gui.py:932 | `list[i]` succeeds exactly for -len <= i < len |
| TableMapping.DefaultDbFieldsDistinct | gui.py:557-587 | the default database fields are distinct |
| TableMapping.DefaultApiFieldsDistinct | gui.py:557-587 | the default API fields are distinct |
| TableMapping.DefaultRowsDistinct | gui.py:589-620 | the default rows have distinct database and API fields |
| TableMapping.DefaultFieldsAreDefaultRows | gui.py:1040-1045 | saving the default rows stores them one for one, in order |
| TableMapping.LaterRowWins | gui.py:1223-1227 | a row's database field maps to its API field unless a later row reuses the field |
| TableMapping.SavedFieldOrder | gui.py:1223-1227 | the saved keys are the rows' database fields without repeats, in first-row order |
| TableMapping.ReloadRoundTrip | gui.py:953-967 | loading stored fields and saving them again writes the same fields |
| TableMapping.WrittenMappingIsUsed | gui.py:1200-1238 | a mapping this tab writes passes the reader's table check and does not raise |
| TableMapping.SaveVerdict | gui.py:1203-1221 | a save is written exactly when the stripped name is non-empty and safe, there are rows, and the file is writable |
| TableMapping.UsableTable | gui.py:935-939 | an entry's stripped table name is used exactly when it is non-empty and safe |
| TableMapping.UsableTableIsTrimmed | gui.py:935-941 | a usable name is already stripped |
| TableMapping.DefaultTableTrimmed | gui.py:1203 | the default table name is unchanged by strip, so saving the defaults writes retail_data |
| TableMapping.TableMappingTab.constructor | gui.py:557-620 | the history as given, the default table and rows shown, and the default written when config.json is writable |
| TableMapping.TableMappingTab.AddMapping | gui.py:1157-1187 | a row is added exactly when the database field is not blank and the API field is not yet mapped; API fields stay distinct |
| TableMapping.TableMappingTab.DeleteMapping | gui.py:1194-1198 | the selected row is removed; no selection changes nothing |
| TableMapping.TableMappingTab.CollectFields | gui.py:1223-1227 | the loop builds the rows' fields dict |
| TableMapping.TableMappingTab.SaveMapping | gui.py:1200-1238 | the outcome is SaveVerdict; on success the stripped name and the fields are written; nothing else changes |
| TableMapping.TableMappingTab.ResetToDefault | gui.py:1023-1054 | the defaults are shown and written when possible |
| TableMapping.TableMappingTab.OnHistorySelected | gui.py:923-971 | index 0, an index past the list, an unusable table name or an entry without fields shows the defaults and leaves the default mapping in config.json when it can be written; otherwise the entry's stripped table and rows are shown, and the mapping written is that table with the rows' fields; nothing is written when config.json cannot be |
| TableMapping.TableMappingTab.LoadConfig | gui.py:932-971 | an unusable table name or no fields shows and writes the defaults; otherwise the entry is shown and the mapping written on a successful save is the stripped name with the rows' fields |
| TableMapping.TableMappingTab.ShowFields | gui.py:944-967 | the table is filled from the fields; on a successful save config.json holds the stripped current name and the rows' fields, otherwise it is unchanged |
| TableMapping.TableMappingTab.UpdateHistoryCombo | gui.py:916-921 | the combo's signals leave the defaults shown and, when config.json can be written, the default mapping in it |
| TableMapping.TableMappingTab.SaveAsNewConfig | gui.py:973-1003 | a new name appends the current mapping, then the combo refill shows and writes the defaults; an empty or taken name changes nothing; names stay distinct |
| TableMapping.TableMappingTab.DeleteCurrentConfig | gui.py:1005-1021 | the default entry is never deleted; a confirmed deletion removes that one entry, then the combo refill shows and writes the defaults |
| TableMapping.DeletionRemovesName | gui.py:1005-1021 | with distinct names, a deletion removes exactly that name and keeps all others |
| ApiConfig.Names | gui.py:2736-2750 | the combo's texts are the entries' names, in order |
| ApiConfig.DescriptionText | gui.py:2977-3010 | a required field's description is tagged; the default text stands in for a missing description |
| ApiConfig.Displayed | gui.py:2977-3010 | one row per field, the default fields when the list is empty |
| ApiConfig.DisplayedIsNeverEmpty | gui.py:2977-3010 | with the default fields non-empty, the table always has a row |
| ApiConfig.WithDefault | gui.py:2741-2745 | the default entry is present; the list is unchanged when it already is, otherwise it is put first |
| ApiConfig.WithDefaultIdempotent | gui.py:2741-2745 | putting the default in place twice is doing it once |
| ApiConfig.Without | gui.py:2832-2835 | the filter never lengthens the list |
| ApiConfig.WithoutMeaning | gui.py:2832-2835 | the filter keeps exactly the entries of other names |
| ApiConfig.WithoutKeepsDefault | gui.py:2816-2837 | deleting another name keeps the default entry and removes the name |
| ApiConfig.FirstNamed | gui.py:2771-2778 | the selection loop stops at the first entry of the name, or at the end |
| ApiConfig.Selection | gui.py:2752-2778 | nothing is displayed exactly for an unknown name; the default name shows the default fields |
| ApiConfig.SelectionIsFirstNamed | gui.py:2771-2778 | a name selects the first entry bearing it |
| ApiConfig.ApiConfigTab.CurrentText | gui.py:2758 | the selected item's text |
| ApiConfig.ApiConfigTab.constructor | gui.py:2422-2426 | the history with the default entry in place, written back when it was added and the file can be written; a missing api_config.json gets the defaults when it can be written; the first entry selected and displayed; a non-empty table |
| ApiConfig.ApiConfigTab.SaveConfigHistory | gui.py:2728-2734 | the list is written when the file can be written; nothing else changes |
| ApiConfig.ApiConfigTab.DisplayConfig | gui.py:2977-3010 | the loop fills the table with Displayed |
| ApiConfig.ApiConfigTab.LoadCurrentConfig | gui.py:2620-2653 | the file's fields, or the defaults when it has none or is missing (and then written), are displayed; the default entry is put in front when absent; an unreadable file, or a missing one that cannot be written, changes nothing |
| ApiConfig.ApiConfigTab.OnConfigSelected | gui.py:2752-2778 | the selected name's fields are displayed; nothing else changes |
| ApiConfig.ApiConfigTab.UpdateConfigList | gui.py:2736-2750 | the default entry is put in place and saved if added; the combo agrees with the list; entry 0 is selected and displayed |
| ApiConfig.ApiConfigTab.RefillCombo | gui.py:2748-2750 | the combo lists the configuration names in order; only the first `addItem` changes the selection, to entry 0, whose fields are displayed |
| ApiConfig.ApiConfigTab.SaveAsNewConfig | gui.py:2780-2814 | each refusal exactly when its condition holds; in a table as the program displays it (always non-empty) the fourth column is empty, so the row loop fails and nothing is stored; user edits of the cells are not modelled |
| ApiConfig.ApiConfigTab.StoreNewConfig | gui.py:2804-2812 | the new empty entry is appended, saved and selected |
| ApiConfig.ApiConfigTab.DeleteCurrentConfig | gui.py:2816-2837 | the default name is never deleted; a confirmed deletion filters out the current name; the table stays non-empty |
| Scheduler.FailuresReturnNormally | main.py:59-75 | a failed login, a non-200 answer and a sample that cannot be serialised print and return |
| Scheduler.PlainSamplePosted | main.py:4-49 | a sample of strings, ints and floats, as `get_sample_data` builds, is serialised, so the answer decides |
| Scheduler.RaisesOnlyOnUnreadableAnswers | main.py:66-72 | main raises exactly after an accepted login on a truthy non-dict answer, or an accepted answer whose content cannot be read |
| Scheduler.RunMain | main.py:53-75 | the outcome of main, and the login request followed, when the sample can be serialised, by the upload with the granted token |
| Scheduler.ReplayConsistent | scheduler.py:9-28 | after any records the statistics stay consistent, count every run, count the successes exactly and keep the last run's time |
| Scheduler.RecordsKeepTheOtherSide | scheduler.py:18-28 | a failure keeps the last success; a success keeps the last error |
| Scheduler.TaskStats.constructor | scheduler.py:10-16 | all counters zero, no times, no error |
| Scheduler.TaskStats.RecordSuccess | scheduler.py:18-22 | one more run and success, both times set to now, consistency kept |
| Scheduler.TaskStats.RecordFailure | scheduler.py:24-28 | one more run and failure, time and error set, consistency kept |
| Scheduler.Job | scheduler.py:44-54 | exactly one record per run: a success if main returns, a failure with its error if it raises |

## Left out

- I/O is not modelled as I/O. Files, the database server, HTTP, the clock and dialog answers are parameters: file states, `Server`, reply values, an `int` or `Date` time, and `ok`/`confirmed` flags.
- The Qt widgets are not modelled beyond the state the operations read and write. Layout, styles, message boxes and logging (`utils/logger.py`, `update_signal`) are left out.
- Qt signals are modelled as direct calls. `clear()` reports index -1, then the first `addItem` on an empty combo reports index 0.
- Threads and timers are left out: `QThread`, `run_scheduler`, the `schedule` loop and `ScheduleTab`.
- Floats are kept abstract as `real`. `float(Decimal)` rounding is not modelled.
- `test_connection`'s internals are left out; its result is a boolean input of the run.
- `db.close()` in the `finally` of `WorkerThread.run` is left out, since closing is I/O and does not change the outcome.
- `MainWindow.start_upload`, `ImportTab.upload_data`, `create_template`, `ExcelMappingTab` and `HistoryTab` are left out: they are outside the modelled core. Only the template's header hints are stated, via `TemplateHeader`.
- `APIConfigTab.import_config` (Excel reading) and `export_config` are left out.
- `TaskStats.get_stats` is left out: it formats a float percentage and timestamps.
- `str()` of a value or an exception is kept structural: the history holds the value, not its text.
- `print` loops that only build messages are left out; their raising behaviour is kept.
- `isalnum` is modelled for ASCII letters and digits and the CJK Unified Ideographs block only.
- Dates.StrpTime: accepts ASCII digits only. Python's `strptime` also accepts other Unicode decimal digits, such as full-width digits, which the model refuses.
- MySQL's case-insensitive `LIKE` is not modelled; `_` matching any character is.
- The key order of fetched rows is not modelled: rows are maps.
- The Excel sheet is reduced to its headers and the conversions' outcome. Non-string headers, NaT dates and duplicate columns after renaming are not modelled.
- The order in which a Python set lists the missing names is left open: `MissingNames` is a set.
- In `TableMappingTab`, user edits of `mapping_table` cells are not modelled: the table keeps Qt's default edit triggers, but the model's rows change only through add, delete, reset and load. An `item()` that returns None (an empty cell) is not modelled either: every row has all its cells.
- The JSON files are typed: a field entry always has `required` as a bool, and `fields` is always a list of entries.
- The 19 entries of `APIConfigTab.get_default_fields` are a non-empty parameter of the tab.
- The hard-coded URL, credentials and sample record of `main.py` are parameters of `Scheduler.RunMain`.
- Values.Value: the driver's other values (a `datetime.timedelta` for TIME, `bytes` for BLOB/BINARY/VARBINARY, a `set` for SET, and any further type) share one constructor, `VOpaque`, which keeps only their truthiness; to the validator they are neither strings nor numbers, and `json` cannot write them.
- RetailApi.JsonSerialisable: follows the standard `json` module, which cannot write a Decimal. When `simplejson` is installed, `requests` uses it instead and Decimals are written; the model does not cover that set-up. NaN and infinite floats do not arise, because floats are exact reals.
- TableMappingTab's writes of `mapping_history.json` are not modelled: its history lives in memory only.
- `api_config.json` and `api_config_history.json` writes succeed exactly when one shared `writable` flag says so.
- ApiConfig.ApiConfigTab.SaveAsNewConfig: user edits of `config_table` cells are not modelled. The table keeps Qt's default edit triggers, so a user who types into the empty fourth column of every row creates its items, and the program then stores those rows, with `type` taken from the description column and `required` true when the cell reads 是. The model's rows have no fourth column, so its "nothing is stored after a display" holds only for the table as the program fills it.
- ApiConfig.ApiConfigTab.SaveAsNewConfig: the row loop's failure on the fourth column is modelled as one outcome, `CellMissing`. In the program, `item(row, 3)` is None for a cell the user has not filled, and the AttributeError escapes the slot uncaught: PyQt5 with no `sys.excepthook` then ends the application. The model instead returns `CellMissing` with the tab unchanged and still `Valid()`.
- The database server has one `fault` that `check_table_exists` and `get_retail_data` both meet. So a run whose `SHOW TABLES` fails only in the second call cannot be expressed.
