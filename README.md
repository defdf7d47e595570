# HunchLab New Orleans import, modelled in Dafny

This project models the two programs of the HunchLab New Orleans import.

`NOLA2CSV.py` downloads the New Orleans calls-for-service collection from a
Socrata open-data endpoint, 1000 records per page. It turns each incident
into a ten-column HunchLab event row and writes the rows to a CSV file.

`upload.py` posts that file to a HunchLab data service using token
authentication. It then polls the import job until the service stops
answering 202, and maps the result to a process exit status. An exception
that escapes `main` also ends the process, with status 1, so status 1
covers both a rejected token and any uncaught exception.

Modules, one per concern:

- `Wrappers` (`wrappers.dfy`): `Option` and `Result`. Python's exceptions
  and `None` become these values.
- `PyStr` (`pystr.dfy`): the Python 2 `unicode` operations that the
  timestamp repair uses: `split('/')`, `split()` and `zfill`. The two splits
  come with their defining properties and with `Join`, which they undo.
  `zfill` is characterised directly and shown to be idempotent.
- `PyTime` (`pytime.dfy`): the parts of `datetime` that the conversion
  uses after parsing. This covers the range check of the `datetime`
  constructor, the one-day steps pytz's `localize` takes, and the text
  `isoformat` writes.
- `NolaTransform` (`nola_transform.dfy`): `NOLATransformer`. This covers
  address decoding, the timestamp string surgery with the two-format parse
  fallback, and `transform`.
- `NolaExport` (`nola_export.dfy`): `soda_to_hl2_csv`. This covers the
  paging loop, the per-incident `try`/`except KeyError` and the CSV writer.
  The writer is a class whose written lines grow.
- `NolaMain` (`nola_main.dfy`): `main` of `NOLA2CSV.py`. This covers the
  header list, the source list and the proof that every written record has
  the ten HunchLab columns.
- `Upload` (`upload.dfy`): `upload.py`. This covers the status table,
  `TokenAuth`, `_config_section_map`, the submission classification, the
  polling loop and the exit decisions of `main`.

Notes on choices:

- Network answers become inputs.
  - A remote collection is a function from a page request (offset and
    limit) to an HTTP status and a list of incidents.
  - The poll answers are a sequence of `(status, processing_status, log)`
    triples.
- Foreign library calls become parameters.
  - `time.strptime` and the UTC offset that pytz's US/Central `localize`
    picks are the two function fields of a `TimeLib` value.
  - `strptime` returns None where Python raises `ValueError`.
  - The `datetime` constructor's range check, the day before and the day
    after that `localize` computes, and `isoformat` are modelled
    (`PyTime`), so a converted time is provably ASCII text.
- Every exception the code does not catch becomes an error value that
  ends the run. Examples are `KeyError`, `IndexError`, `ValueError`,
  `TypeError` and `NoSectionError`.
- Three facts about the code that shape the model:
  - Only `KeyError` is caught (NOLA2CSV.py:102). Other failures end the
    export. These are:
    - an `IndexError` from a timestamp with fewer than two `/` (lines
      29-30) or with no time-of-day token (line 31);
    - a `ValueError` from a timestamp neither format parses (line 39);
    - a `ValueError` from `datetime` for parsed fields out of its range,
      such as second 60 or 61, which `strptime` accepts (line 41);
    - an `OverflowError` from pytz's `localize` (line 41) for a time on
      0001-01-01 or 9999-12-31. `localize` adds a day and subtracts a day
      before choosing the offset, and `datetime` cannot go past either
      end of its range;
    - the CSV writer's `UnicodeEncodeError` for a `unicode` field that is
      not ASCII (line 101). The four time columns hold the byte string
      `isoformat` returns, which is ASCII, so only the other six columns
      can raise it.
  - The processing status is looked up in `PROCESSING_STATUSES` both
    inside the poll loop (upload.py:135) and after it (line 141). An
    unknown code raises `KeyError` at either place.
  - The time of day is padded only when it has four characters, and only
    to five (NOLA2CSV.py:32-33), so `2:36` becomes `02:36`.

## Model

| member | source | states |
|---|---|---|
| `PyStr.Split` | NOLA2CSV.py:27 | `split('/')` returns at least one piece, no piece contains the separator, and joining the pieces with the separator gives back the input |
| `PyStr.SplitJoin` | NOLA2CSV.py:27 | splitting undoes joining whenever no piece contains the separator |
| `PyStr.SplitWhitespace` | NOLA2CSV.py:31 | `split()` returns non-empty tokens that contain no whitespace |
| `PyStr.SplitWhitespaceGaps` | NOLA2CSV.py:31 | the input is the tokens of `split()` interleaved with runs of whitespace. Every run is non-empty between two tokens, and also at the start when the input starts with whitespace. So the tokens are exactly the maximal non-space runs |
| `PyStr.SplitWhitespaceJoin` | NOLA2CSV.py:31 | `split()` gives back non-empty space-free tokens that were joined with single spaces |
| `PyStr.ZFill` | NOLA2CSV.py:28-29 | `zfill(w)` leaves a string of length `w` or more unchanged; otherwise the result has length `w`, with zeros on the left placed after any leading sign |
| `PyStr.ZFillIdempotent` | NOLA2CSV.py:28-29 | zero-filling twice is the same as zero-filling once |
| `PyTime.DaysInMonth` | NOLA2CSV.py:41 | the month lengths the `datetime` constructor checks a day against: 28 to 31, and 29 exactly for February of a leap year |
| `PyTime.Digits` | NOLA2CSV.py:43 | the decimal digits of a number, non-empty, with a leading `0` only for zero |
| `PyTime.DigitsValue` | NOLA2CSV.py:43 | the digits of a number denote that number |
| `PyTime.PadInt` | NOLA2CSV.py:43 | a field zero-filled to its width is at least that wide, exactly that wide when the number fits, all digits, and denotes the number |
| `PyTime.NextDay` | NOLA2CSV.py:41 | the day after an in-range time, at the same clock, is in range; there is none exactly on 9999-12-31 |
| `PyTime.PrevDay` | NOLA2CSV.py:41 | the day before an in-range time, at the same clock, is in range; there is none exactly on 0001-01-01 |
| `PyTime.NextPrevDay` | NOLA2CSV.py:41 | a step forward and then back returns the same time |
| `PyTime.PrevNextDay` | NOLA2CSV.py:41 | a step back and then forward returns the same time |
| `PyTime.DayStepOverflows` | NOLA2CSV.py:41 | a step of one day either way fails exactly on the first and the last day of the `datetime` range |
| `PyTime.OffsetText` | NOLA2CSV.py:43 | the UTC offset is written as a sign, `:` and two groups of digits; the sign is `-` exactly for a negative offset; the digits before the `:` denote the whole hours and the two after it the remaining minutes of the offset's size; the text is ASCII |
| `PyTime.IsoFormat` | NOLA2CSV.py:43 | `isoformat` of an in-range time is ASCII text of at least 25 characters |
| `PyTime.IsoFormatFields` | NOLA2CSV.py:41-43 | the `isoformat` text has `-`, `T` and `:` in their places; each of the six fields is digits that read back as the parsed value; the UTC offset follows the seconds |
| `NolaTransform.HeaderSetIsHeaders` | NOLA2CSV.py:111-112 | the key set of a row is exactly the names in `main`'s header list |
| `NolaTransform.Get` | NOLA2CSV.py:53 | looking up a key succeeds exactly when the key is present, and otherwise raises `KeyError` naming that key |
| `NolaTransform.DecodeAddress` | NOLA2CSV.py:19-21 | the address is `block_address + ", " + zip` exactly when both keys are present; otherwise `KeyError` names the first missing key |
| `NolaTransform.PadClock` | NOLA2CSV.py:31-33 | a time token of exactly four characters gains a leading `0` (after a sign, if any); a token of any other length passes through unchanged |
| `NolaTransform.CleanTime` | NOLA2CSV.py:27-35 | the cleanup can fail only with `IndexError`; its value is pinned by `CleanTimeShape`, `CleanTimeUnpadded` and `CleanTimeExample`, and its failure by `CleanTimeFails` |
| `NolaTransform.CleanTimeShape` | NOLA2CSV.py:27-35 | `M/D/` followed by space-separated tokens cleans to the zero-filled month and day, then the year token, then the padded time token; any later tokens are dropped |
| `NolaTransform.CleanTimeUnpadded` | NOLA2CSV.py:25-35 | every one-digit `M/D/YYYY H:MM` timestamp is repaired to `0M/0D/YYYY 0H:MM` |
| `NolaTransform.CleanTimeExample` | NOLA2CSV.py:27-35 | `4/1/2015 2:36` is cleaned to `04/01/2015 02:36` |
| `NolaTransform.CleanTimeDateOnly` | NOLA2CSV.py:31 | a timestamp with a date but no time-of-day token fails with `IndexError` |
| `NolaTransform.CleanTimeFails` | NOLA2CSV.py:27-31 | the cleanup fails exactly when the timestamp has fewer than two `/` or its third segment has fewer than two whitespace tokens |
| `NolaTransform.CleanTimeFewSlashes` | NOLA2CSV.py:29-30 | a timestamp with fewer than two `/` fails with `IndexError` |
| `NolaTransform.ConvertTime` | NOLA2CSV.py:23-43 | converting a time raises only `IndexError`, `ValueError` or `OverflowError`, never `KeyError`; a converted time is ASCII text |
| `NolaTransform.Localize` | NOLA2CSV.py:40-43 | building the `datetime` raises `ValueError` exactly when a parsed field is out of range; `localize` raises `OverflowError` exactly for an in-range time on 0001-01-01 or 9999-12-31; otherwise the result is the `isoformat` text of the fields with the US/Central offset |
| `NolaTransform.ConvertTimeFallback` | NOLA2CSV.py:36-43 | `%H:%M:%S` is tried first and wins whenever it parses; `%H:%M` is used only when the first format fails; `ValueError` occurs exactly when both fail or the format that parsed yields fields `datetime` rejects |
| `NolaTransform.LeapSecondFails` | NOLA2CSV.py:36-41 | a time that `%H:%M:%S` parses with second 60 or 61 raises `ValueError` |
| `NolaTransform.RangeEndOverflows` | NOLA2CSV.py:36-41 | conversion raises `OverflowError` exactly when the format that parsed gives an in-range time on the first or the last day of the `datetime` range |
| `NolaTransform.MakeRow` | NOLA2CSV.py:52-63 | the row has exactly the ten header keys, each holding the value computed for its column |
| `NolaTransform.NolaTransformer.Transform` | NOLA2CSV.py:45-63 | a row has exactly the ten header keys; it is produced exactly when all eight incident keys are present and both timestamps convert |
| `NolaTransform.TransformFields` | NOLA2CSV.py:52-63 | each column's source: `datasource` is the transformer's field; `datetimefrom`, `datetimeto` and `report_time` are equal and come from `timecreate`; `last_updated` comes from `timeclosed` |
| `NolaTransform.MissingKeyFails` | NOLA2CSV.py:45-63 | if any required incident key is missing, the whole transform fails |
| `NolaTransform.TransformKeyError` | NOLA2CSV.py:45-63 | the exact condition under which `transform` raises `KeyError`, taking the evaluation order into account |
| `NolaTransform.KeyErrorNamesFirstMissing` | NOLA2CSV.py:53-62 | the key a `KeyError` names is missing, and every key read before it is present |
| `NolaExport.DictRow` | NOLA2CSV.py:101 | `writerow` lays the row out in header order, writing "" for an absent header; it fails exactly when the row has a key that is not a header |
| `NolaExport.DictRowComplete` | NOLA2CSV.py:101 | a row whose keys are the header names, all of them, is laid out as its values in header order |
| `NolaExport.EncodeRow` | NOLA2CSV.py:101 | `writerow` raises `ValueError` for a key that is not a header and `UnicodeEncodeError` for a field that is not ASCII; otherwise it produces the laid-out row, which is all ASCII |
| `NolaExport.CsvWriter.WriteHeader` | NOLA2CSV.py:85 | the header names are appended to the file as one record |
| `NolaExport.CsvWriter.WriteRow` | NOLA2CSV.py:101 | the row's record is appended when the writer accepts it; when it raises, the file is unchanged |
| `NolaExport.StepOf` | NOLA2CSV.py:98-103 | an incident is skipped exactly when its transform raises `KeyError`, and written exactly when it transforms and the writer accepts the row; a row the writer refuses stops the export with the writer's error |
| `NolaExport.Process` | NOLA2CSV.py:98-103 | a page writes at most one record per incident, and strictly fewer when an exception escapes it |
| `NolaExport.ProcessClean` | NOLA2CSV.py:98-103 | when no incident raises anything but `KeyError`, the page writes the records of its kept incidents in input order |
| `NolaExport.ProcessHalts` | NOLA2CSV.py:98-103 | otherwise the page writes the kept records that come before the first failing incident, then stops with that incident's exception |
| `NolaExport.ProcessAborts` | NOLA2CSV.py:98-103 | an exception escapes a page exactly when some incident raises something other than `KeyError` |
| `NolaExport.WriteIncidents` | NOLA2CSV.py:98-103 | the inner loop appends exactly the page's processed records to the file and returns the exception that escaped, if any |
| `NolaExport.PageRequest` | NOLA2CSV.py:87-91 | the i-th request has offset 1000·i and limit 1000 |
| `NolaExport.RunFrom` | NOLA2CSV.py:87-106 | the paging loop from page i sends at least one request and at most one per page up to the page that ends paging; the n-th has offset 1000·(i+n); an HTTP error ending carries a 4xx or 5xx status |
| `NolaExport.WritePage` | NOLA2CSV.py:91-105 | one pass of the paging loop stops on an HTTP error, an empty page or an escaping exception; otherwise it appends the page's records and goes on |
| `NolaExport.RunCharacterized` | NOLA2CSV.py:85-106 | if page k is the first page not passed, exactly k+1 requests are made, at offsets 0, 1000, …, 1000·k; the file holds the kept records of pages 0..k-1 in order, then what page k contributes |
| `NolaExport.StopsAt` | NOLA2CSV.py:89-106 | the loop stops at the first page that is empty, fails with an HTTP error, or has an incident that raises something other than `KeyError` |
| `NolaExport.TwentyFiveHundredRecords` | NOLA2CSV.py:87-106 | with pages of 1000, 1000, 500 and then 0 records: four requests, the last at offset 3000, and 2500 incidents fetched |
| `NolaExport.SodaToHl2Csv` | NOLA2CSV.py:66-106 | the export writes the header first, then the records of the whole run; it returns the requests made and how the export ended |
| `NolaMain.NolaPipeline` | NOLA2CSV.py:120-122 | each endpoint is exported with `main`'s header list and a transformer named after the endpoint URL |
| `NolaMain.HeadersLine` | NOLA2CSV.py:101 | every transformed row has no key outside the headers and no missing column, so it lays out as its ten values in header order |
| `NolaMain.NolaStep` | NOLA2CSV.py:98-103 | a New Orleans incident is written exactly when it transforms and its fields are ASCII. It is skipped exactly on `KeyError`. Otherwise it stops the export, with the transform's error or with `UnicodeEncodeError` |
| `NolaMain.AsciiColumns` | NOLA2CSV.py:101 | a row with the header keys is ASCII exactly when each of its ten values is |
| `NolaMain.TimeColumnsAscii` | NOLA2CSV.py:41-63 | the four time columns of a transformed row are ASCII, so the writer accepts the row exactly when its six other columns are ASCII |
| `NolaMain.NolaStepWrites` | NOLA2CSV.py:98-103 | a transformed incident with ASCII fields is written as its ten fields, with the URL as datasource and the three time columns equal; one with a non-ASCII field stops the export |
| `NolaMain.RowWritten` | NOLA2CSV.py:100-101 | a transformed row is written as its ten fields when they are ASCII, and otherwise the writer raises `UnicodeEncodeError` |
| `NolaMain.SourceRunLines` | NOLA2CSV.py:109-122 | every record of an export has ten fields, the endpoint URL as datasource and the three time columns equal |
| `NolaMain.ExportSource` | NOLA2CSV.py:120-122 | one source's file is its header followed by its export's records, each record carrying that endpoint's URL as datasource |
| `NolaMain.ExportSources` | NOLA2CSV.py:109-122 | each source is exported in turn to its own file; an export that does not end at an empty page stops `main` |
| `NolaMain.ExportMain` | NOLA2CSV.py:109-122 | `main` exports the one active source to `NolaCrimes2014.csv`, and ends normally exactly when that export reaches an empty page |
| `Upload.StatusLabel` | upload.py:18-26 | looking up a status code succeeds for exactly the seven codes, and it gives `Completed` exactly for `COMP` |
| `Upload.StatusesDistinct` | upload.py:18-26 | the table has seven codes and is invertible: each label maps back to its code, so no two codes share a label |
| `Upload.AuthValueRoundTrip` | upload.py:37-40 | the Authorization value is `Token ` followed by the token, and the token can be read back from it unchanged |
| `Upload.TokenAuth.Call` | upload.py:37-40 | the hook sets `Authorization` to `Token <token>`, leaves every other header unchanged and returns the same request; a `None` token raises before any change |
| `Upload.Send` | upload.py:103-105 | every request the session sends carries exactly the token header; with a `None` token nothing is sent |
| `Upload.SectionMap` | upload.py:47-58 | a missing section raises `NoSectionError`; otherwise the keys are exactly the section's options, each holding what `config.get` gives |
| `Upload.ConfigSectionMap` | upload.py:47-58 | the result's keys are exactly the section's options, and each value is what `config.get` returned, or `None` where it raised; a missing section raises |
| `Upload.Endpoint` | upload.py:96 | the upload endpoint is the base URL followed by exactly `/api/dataservice/` |
| `Upload.JobUrl` | upload.py:131 | the poll URL is the upload endpoint followed by the job id, and the job id can be recovered from it |
| `Upload.ReadSettings` | upload.py:95-98 | `baseurl`, `certificateauthority` and `token` are read in that order. The first missing one raises `KeyError` naming it, and a `None` baseurl raises `TypeError` before the later reads. Otherwise the settings hold the endpoint and the two other values |
| `Upload.Classify` | upload.py:116-121 | a 401 answer to the POST is an authentication failure, any other non-202 answer is a generic failure, and only 202 is accepted |
| `Upload.Polling` | upload.py:130-141 | the number of sleeps equals the number of leading 202 answers, each of which has a known code; polling ends at the first non-202 answer and reports that answer's label and log |
| `Upload.FinishedAfterLeadingPending` | upload.py:131-141 | when polling finishes, it has slept once per leading 202 answer and reports the log of the first non-202 answer verbatim |
| `Upload.PendingKnownFinishes` | upload.py:131-141 | when every code up to the first non-202 answer is known, polling finishes at that answer |
| `Upload.PollingCompleted` | upload.py:130-152 | polling ends in `Completed` exactly when the first non-202 answer's code is `COMP` and every pending answer before it has a known code |
| `Upload.PollJob` | upload.py:130-146 | the loop computes `Polling` of the answers; it sends one authenticated GET to the job URL per answer read |
| `Upload.PollOutcome` | upload.py:141-152 | a finished poll returns normally exactly on `Completed` and exits 5 on any other known status; an unknown code is a `KeyError` crash |
| `Upload.UploadOutcome` | upload.py:86-152 | `main` exits with a code from 0 to 5, crashes only after the configuration file is found (once polling, only on an unknown status code), and is still polling exactly when it reaches the poll loop and the given answers run out while the job is pending |
| `Upload.ExitStatus` | upload.py:86-152 | an outcome's process status is its `sys.exit` code, or 1 for an escaping exception |
| `Upload.RunUpload` | upload.py:86-152 | `main` ends as `UploadOutcome` says. A POST is sent exactly when the configuration and CSV checks pass; GETs follow only after a 202. Every call goes to the right URL with the token header, and the sleep count is the poll's |
| `Upload.MissingConfigFirst` | upload.py:86-89 | a missing configuration file exits with 3, and no other case exits with 3 |
| `Upload.MissingCsvBeforePost` | upload.py:108-114 | a missing CSV file exits with 4 exactly when the configuration has been read, and no POST has been sent at that point |
| `Upload.SubmissionExits` | upload.py:116-121 | `sys.exit(1)` is called exactly when the POST is answered with 401, and `sys.exit(2)` exactly when it is answered with any other non-202 status |
| `Upload.ExitStatusOne` | upload.py:116-118 | the process ends with status 1 exactly when the POST is answered with 401 or an exception escapes `main` |
| `Upload.SucceedsExactlyOnCompleted` | upload.py:130-152 | the run returns normally exactly when the upload is accepted and the first non-202 poll answer is `COMP` |
| `Upload.FailsOnOtherStatus` | upload.py:141-152 | exit 5 happens exactly when the job ends in a known status other than `COMP` |
| `Upload.TwoPendingThenCompleted` | upload.py:131-152 | the answers 202, 202 and then `COMP` give success after exactly two sleeps |
| `Upload.FailedReportsLog` | upload.py:141-152 | a final `FAIL` exits with 5 and passes the service's log text through verbatim |

## Left out

- HTTP transport is replaced by its answers. This covers `requests`,
  `Session`, certificate verification through `s.verify`, the pyopenssl
  injection, and connection failures. The certificate setting is read but
  has no effect in the model.
- JSON decoding is replaced by its decoded values.
  - Incident values are strings. Number-valued fields, and the
    `TypeError` they would raise on concatenation, are not modelled.
  - `processing_status` is taken after `str(...)`.
  - Missing `processing_status` or `log` keys in a poll body are not
    modelled. A missing `import_job_id` is modelled, as `MissingJobId`.
- `time.strptime` and the UTC offset pytz's US/Central `localize` picks
  (daylight-saving resolution) are uninterpreted parameters (`TimeLib`).
  They are foreign library behaviour. Of `localize` itself, only the
  one-day steps it takes before choosing the offset are modelled, because
  they decide when it raises.
- NolaExport.CsvWriter.WriteRow: the ASCII test stands for Python 2's
  default codec, and it is applied to every field. In the code the four
  time columns are byte strings from `isoformat`, which the writer passes
  through untested. The model's `isoformat` text is provably ASCII
  (`NolaMain.TimeColumnsAscii`), so the test never fails on those columns.
- The CSV writer's quoting and line endings are not modelled. A record is
  the list of its field values. File creation and truncation become a
  fresh writer.
- `time.sleep` is not modelled: the 0.25 s page pause and the 15 s poll
  pause are wall-clock waits. The poll pauses are counted.
- Elapsed-time reporting (`_START`, `time.time()`) and all logging are
  not modelled. They are clock and output only. The `== -1` test in
  `_config_section_map` only logs, and a string read from the
  configuration never equals `-1`.
- Argument parsing, logging setup, file existence checks and reading the
  configuration file are I/O.
  - The two existence checks are booleans of the environment.
  - The parsed configuration is a section-to-options map plus a `get`
    function, into which `ConfigParser`'s DEFAULT-section merging and
    interpolation are folded.
- Default headers the session adds itself (User-Agent and others) are
  library behaviour. A call's headers hold only what this code sets.
- The poll loop has no bound in the code. The model stops when the given
  answers run out while the job is still pending (`StillPolling`).
- Upload.PollJob: with no answers at all, it sends no GET. The code always
  sends the first GET (upload.py:131). A run with an empty answer list
  stands for a service that has not answered yet.
- Paging termination assumes a finite collection. Each export is given a
  page that ends paging, as a ghost argument. A collection that never
  returns an empty page is not modelled.
- `NOLAUpdate.py` is not part of this model. It only calls the export and
  then starts the upload program.
