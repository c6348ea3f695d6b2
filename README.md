# Prompt-competition auto-grader, modelled in Dafny

This project models the core of a service that grades prompt-engineering competitions:

- **Grading engine** (`grading_engine.py`):
  - it runs a participant's prompt three times against a language model, each run retried with exponential backoff;
  - it embeds the three outputs in one master evaluation prompt;
  - it asks the model for a structured score and validates that score;
  - it wires execution and evaluation together, all or nothing.
- **Orchestration** in `main.py`:
  - the grading job drives one submission record through its status transitions;
  - the start endpoint selects the pending submissions;
  - the two upload handlers parse a participants CSV and the names of the entries of a submissions ZIP;
  - the leaderboard numbers its rows.
- **File parser** (`file_parser.py`):
  - it detects the type of a file by its extension;
  - it dispatches to the right parser;
  - it assembles the text of PDF pages and Excel sheets.
- **Progress endpoints** (`grading_progress_api.py`): they map a persisted status to a progress snapshot.

## How the model is built

Each module pairs its Python operations with Dafny members.

- **Methods and their specifications.** Operations with loops are methods (`ExecuteSinglePrompt`, `ExecutePromptThreeTimes`, `EvaluateOutputs`, `ParsePdf`, `ParseExcel`, `UploadParticipants`, `UploadSubmissions`, `RankStandings`, `Store.StartGrading`). Each is proved equal to a specification function, and lemmas state what the source promises about that function.
- **The language model is an oracle.** The environment `Env(script, sent, slept)` works like this:
  - call `k` receives `script[k]`, which is a completion (a text, or None, as the client's `message.content` may be) or a call error;
  - once the script is used up, every further call fails;
  - every request sent is appended to `sent`;
  - every `time.sleep` is recorded in `slept`, in milliseconds.

  Call counts, the backoff schedule and "the evaluator is never called" are therefore statements about `sent` and `slept`.
- **JSON parsing is a parameter.** `json.loads` of the evaluator's reply is a function the caller supplies. It yields a JSON object or a parse error. Numbers keep Python's split between `int` and `float`, and a float is a finite number, NaN or an infinity, as `json.loads` reads `NaN`, `Infinity` and `-Infinity`.
- **The database is a store object.** The `Store` class holds the competitions, assignments and submissions tables as maps from id to record. `GradeSingleSubmission` updates a record in place. A ghost log records every status written.

The modules are `Wrappers`, `PyText`, `MasterPrompt`, `GradingEngine`, `FileParser`, `GradingProgress`, `Server`, `Uploads` and `Leaderboard`. `PyText` holds the Python string operations the source relies on: `strip`, `split`, `join`, `endswith`, `lower`, `replace`, `os.path.splitext` and `int()`.

Where the code departs from the design notes, the model follows the code:

- An evaluator answer that parses but fails validation is not retried. It fails at once with "Invalid grading result format" (`grading_engine.py:155-156`). Only exceptions are retried: a call error, a reply without text (`json.loads(None)` raises), unparseable JSON, or a `TypeError` raised while validating.
- When the engine reports a failure, the submission goes to `manual_review`, not `failed` (`main.py:476-484`). Only an exception sets `failed`.
- There is no guard against grading the same submission twice at once.
- A validated grade need not be well-formed: a `total_score` of NaN passes, because `abs(nan - x) > 0.1` is False (see "## Findings").
- A run whose reply has no text (`message.content` is None) succeeds, and the master prompt then fails to slice it. That exception escapes the engine, and the job marks the submission `failed`.
- No "evaluating" status is ever written. The statuses are pending, executing, completed, manual_review and failed.
- The progress endpoint maps `pending`, `executing` and `manual_review` alike to `not_started`.
- No code of the service writes the in-memory `grading_progress` map the progress endpoints read first (`grading_progress_api.py:16`, `:61-62`); `grade_single_submission` writes only the database. The endpoint code is kept apart from `main.py`, which does not define the map. The model takes the map as a parameter; with the service as given, only the fallback to the persisted status is reached.

## Model

| member | source | states |
|---|---|---|
| PyText.Split | main.py:190-210 | `str.split` on one character: at least one piece, no piece holds the separator, and joining the pieces gives the text back |
| PyText.SplitJoin | main.py:190-210 | splitting undoes joining when no piece holds the separator |
| PyText.ParseIntOfNatToString | main.py:373 | `int()` reads back the decimal spelling of every natural number |
| PyText.ParseIntLeadingZeros | main.py:373 | `int()` ignores leading zeros, so "001" reads as 1 |
| PyText.SplitExtOfStem | main.py:363 | `os.path.splitext` separates exactly the last extension from a stem whose last path component holds a character other than a dot, dots at the end of the stem included |
| PyText.SplitExtLower | file_parser.py:112 | lower-casing a name lower-cases its stem and its extension and leaves the split where it was |
| MasterPrompt.Preview | grading_engine.py:195-213 | an output (or the golden output) longer than 1500 characters is cut to its first 1500 plus "..."; a shorter one is kept whole |
| MasterPrompt.OutputsShownInOrder | grading_engine.py:169-256 | the master prompt shows outputs 1, 2 and 3 in run order, then the golden block (empty when there is none), and ends with the fixed rubric |
| GradingEngine.Window | grading_engine.py:78-85 | the replies the oracle gives to calls `from` up to `to`, one per call |
| GradingEngine.CompletionsAppend | grading_engine.py:51-61 | the completions of two stretches of replies are those of the first followed by those of the second |
| GradingEngine.Backoffs | grading_engine.py:92-94 | the backoff after failed attempt `r` is 2^r seconds |
| GradingEngine.SingleRunShape | grading_engine.py:65-98 | one run: every call sends the run's prompt; there are at most max_retries+1 calls, all but the last an error; the first completion is returned; on exhaustion the last error is reported; after each failed attempt r that is not the last the run slept 2^r s; a negative budget makes no call and reports "Max retries exceeded" |
| GradingEngine.ExecuteSinglePrompt | grading_engine.py:65-98 | the retry loop computes exactly the run `SingleRunShape` describes |
| GradingEngine.FullPrompt | grading_engine.py:46-49 | the input data is appended after "\n\n[Input Data]\n" when it is non-empty; otherwise the bare prompt is sent |
| GradingEngine.ExecuteThreeShape | grading_engine.py:26-63 | on success, exactly three outputs, the completions received in call order; on failure of run k, the error names run k, it is that run's last error, and no later run was started and no output is returned |
| GradingEngine.ExecutePromptThreeTimes | grading_engine.py:26-63 | the loop appending outputs computes exactly the three runs `ExecuteThreeShape` describes |
| GradingEngine.ValidateGradingResult | grading_engine.py:258-288 | accepted exactly when all eight keys are present, the three sub-scores are numbers in [0,50], [0,30] and [0,20] (NaN and the infinities never are), and the total is within 0.1 of their sum or is NaN, since every comparison with NaN is False; a missing key always rejects; a TypeError can only arise once every key is present |
| GradingEngine.EmptyResultRejected | grading_engine.py:260-269 | the empty object is rejected |
| GradingEngine.AcceptedScoresInBounds | grading_engine.py:271-288 | every accepted result has finite sub-scores within their bounds, and a total that is NaN or a finite number within 0.1 of their sum |
| GradingEngine.IntegerScoresExact | grading_engine.py:271-288 | with integer scores the check is exact: accepted exactly when the sub-scores are in range and the total equals their sum |
| GradingEngine.NaNTotalAccepted | grading_engine.py:280-286 | a result with bounded sub-scores and a NaN total is accepted, although it is not well-formed |
| GradingEngine.NaNTotalExampleAccepted | grading_engine.py:280-286 | the answer 50/30/20 with total NaN is accepted and is not well-formed |
| GradingEngine.ValidateGradingResultFinite | grading_engine.py:258-288 | the validation as evidently intended: accepted exactly when the score is well-formed, with a finite total within 0.1 of the sum |
| GradingEngine.EvaluateShape | grading_engine.py:100-167 | evaluation makes one to three calls with the same grading request; all but the last threw; an accepted result is returned as parsed; a parsed but invalid result fails at once with "Invalid grading result format"; a third exception fails with its message; after each retried exception r it slept 2^r s |
| GradingEngine.InvalidResultNotRetried | grading_engine.py:155-156 | an invalid first answer costs exactly one call, no sleep, and the invalid-format failure |
| GradingEngine.EvaluationAcceptsOnlyValid | grading_engine.py:151-158 | an accepted evaluation result always passed validation: bounded sub-scores and a total within 0.1 of their sum or NaN |
| GradingEngine.EvaluateOutputs | grading_engine.py:100-167 | the evaluator loop computes exactly the evaluation `EvaluateShape` describes |
| GradingEngine.GradeExecuted | grading_engine.py:190-206 | after a successful execution, building the master prompt raises "'NoneType' object is not subscriptable" exactly when some run's reply had no text, before any evaluator call; otherwise the three texts are kept, and the result and error are the evaluation's, success exactly when it accepted |
| GradingEngine.GradeSubmission | grading_engine.py:290-326 | if execution fails, the result is (False, {}, [], error) and every request sent was an execution request, so the evaluator was never called; an exception escapes exactly when a run came back without text; if evaluation fails, the three outputs are kept; success returns the three outputs and a result that passed validation, with no error |
| GradingEngine.GradeOutputs | grading_engine.py:309-326 | the part after a successful execution computes exactly `GradeExecuted` |
| FileParser.DetectOfStem | file_parser.py:106-122 | the type depends only on the last extension, lower-cased: .pdf, .txt, .xlsx/.xls/.xlsm, else none |
| FileParser.ExtensionType | file_parser.py:115-122 | only .pdf, .txt, .xlsx, .xls and .xlsm are classified, each as a type `parse_file` dispatches on |
| FileParser.DetectFileType | file_parser.py:106-122 | a detected type is always a supported one, and only a name with an extension is detected |
| FileParser.DetectIgnoresCase | file_parser.py:112 | a name and its lower-cased form are given the same type |
| FileParser.DetectExample | file_parser.py:112-122 | "notes.pdf..TXT" is detected as txt: only the last extension counts, in any case, and the dots before it stay in the stem |
| FileParser.DetectHiddenFile | file_parser.py:113-122 | ".pdf" has no extension and is not detected |
| FileParser.ParseTxt | file_parser.py:41-53 | UTF-8 is tried first, then CP949, else "Unable to decode text file" |
| FileParser.TextPagesAreNumbered | file_parser.py:62-66 | each kept page carries the 1-based number of its original page and its text, and only blank pages are dropped |
| FileParser.TextPagesIncreasing | file_parser.py:62-66 | kept pages appear in increasing page order |
| FileParser.TextPagesComplete | file_parser.py:62-66 | every page with text is kept |
| FileParser.PdfTextIsBlocksOfTextPages | file_parser.py:56-72 | the PDF text is the "--- Page n ---" blocks of the kept pages, joined with "\n\n" in page order |
| FileParser.PdfSucceedsIffSomePageHasText | file_parser.py:67-68 | PDF parsing fails with "PDF contains no extractable text" exactly when every page is blank |
| FileParser.ParsePdf | file_parser.py:56-72 | the page loop computes exactly the outcome the PDF lemmas describe |
| FileParser.FirstOtherLabel | file_parser.py:99 | the position of the first column label that is not a string, if any |
| FileParser.JoinLabels | file_parser.py:99 | `', '.join` of the labels succeeds exactly when every label is a string, and then joins their texts with ", " |
| FileParser.SheetParts | file_parser.py:92-99 | a sheet gives its six parts exactly when its labels join |
| FileParser.SheetsPartsLayout | file_parser.py:75-103 | the sheets are readable exactly when every sheet's labels join; then sheet k contributes parts 6k to 6k+5, in workbook order; otherwise the error is that of the first sheet whose labels do not join |
| FileParser.NonStringLabelFails | file_parser.py:99-103 | a sheet whose labels are strings up to a non-string label k fails the whole parse with "Excel parsing failed: sequence item k: expected str instance, <type> found" |
| FileParser.AppendSheet | file_parser.py:92-99 | the appends for one sheet add exactly that sheet's header, table, blank line, summary title, row and column counts, and column names, in that order, or stop with the join's TypeError |
| FileParser.ParseExcel | file_parser.py:75-103 | the sheet loop computes exactly the joined parts of every sheet, or the read error, or the join error of the first sheet with a non-string label |
| FileParser.ParseFileOutcome | file_parser.py:17-38 | "txt", "pdf" and "excel" go to their parsers; any other type string yields (False, "Unsupported file type: <t>") |
| FileParser.SupportedNeverUnsupported | file_parser.py:28-36 | a supported type never gets the unsupported-type answer |
| FileParser.DetectedFilesAreParsed | file_parser.py:29-34 | every detected type is one that `parse_file` dispatches on |
| FileParser.ParseFile | file_parser.py:17-38 | the dispatch computes exactly the outcome of the chosen parser |
| GradingProgress.SnapshotOfStatus | grading_progress_api.py:28-51 | "completed" gives progress 100 and count 3; "failed" gives a failed snapshot with progress 0; every other status gives not_started with progress 0 and count 0 |
| GradingProgress.GetGradingProgress | grading_progress_api.py:11-53 | a live snapshot is returned unchanged; without one, an unknown id is 404 "Submission not found" and a known one reads its persisted status |
| GradingProgress.GetAllGradingProgress | grading_progress_api.py:55-63 | active_gradings is the number of live snapshots, all returned |
| GradingProgress.UnfinishedStatusesReadAsNotStarted | grading_progress_api.py:44-51 | pending, executing, manual_review and unknown statuses read as not started |
| GradingProgress.FullProgressMeansCompleted | grading_progress_api.py:28-51 | without a live snapshot, 100 percent is reported exactly for completed submissions |
| GradingProgress.LiveSnapshotWins | grading_progress_api.py:16 | a live snapshot wins, whatever the persisted statuses are |
| Server.StatusName | main.py:460-507 | the status column only ever holds pending, executing, completed, manual_review or failed |
| Server.StatusNamesDistinct | main.py:460-507 | distinct statuses are written as distinct texts |
| Server.Finish | main.py:476-498 | an engine failure sets manual_review, stores the error and adds exactly one to retry_count, leaving outputs, result and graded_at untouched; a success stores outputs 1-3 in order, the result and graded_at, and sets completed |
| Server.FinishGradedWhenCompleted | main.py:486-498 | finishing keeps the invariant that a completed record holds three outputs, a grade that passed validation and a grading time |
| Server.GradeThenFinish | main.py:465-498 | when the engine returns, grading then finishing gives completed with a grade that passed validation, or manual_review |
| Server.FinishedRecordProgress | main.py:476-498 | a record flagged for manual review reads as not started on the progress endpoint |
| Server.GradeRecord | main.py:458-507 | identity fields are kept; the record ends failed exactly when the engine could not be set up (carrying that error) or a run came back without text (carrying "'NoneType' object is not subscriptable"); otherwise it ends completed or manual_review; a completed record holds a grade that passed validation |
| Server.GradeJob | main.py:458-507 | the job computes exactly the record `GradeRecord` describes |
| Server.Store.GradeSingleSubmission | main.py:435-510 | an unknown id writes nothing; otherwise "executing" is written, then the final record, and no other record or table changes; the invariant that a completed record holds a grade that passed validation is preserved |
| Server.Store.PersistedStatuses | grading_progress_api.py:16-27 | the progress endpoint sees a status for every stored submission |
| Server.Store.StartGrading | main.py:514-541 | one job per pending submission of the competition, each exactly once and no other; the "no pending" message when there is none |
| Uploads.LastPosition | main.py:214-225 | the last position of a column name, or -1 when absent |
| Uploads.Field | main.py:214-225 | `dict(zip(header, values)).get(key, "")`: the value under the last column of that name, or "" |
| Uploads.ParseRowSkips | main.py:206-225 | a data line is skipped exactly when it is blank or has fewer fields than the header; otherwise name and email are read by column |
| Uploads.UploadParticipants | main.py:175-231 | the loop computes exactly the outcome of the upload, and the message counts the rows inserted |
| Uploads.ParticipantRowsTrace | main.py:206-229 | each inserted row is the reading of a data line, in file order |
| Uploads.ParticipantRowsComplete | main.py:206-229 | every data line that reads as a row is inserted |
| Uploads.MissingColumnsRefused | main.py:197-202 | a header without name, then without email, is refused with "Missing required column" |
| Uploads.UploadCsvRoundTrip | main.py:186-231 | a CSV written from clean participants uploads back exactly those participants with an "N participants added successfully" message; a header alone is refused as empty |
| Uploads.CsvSplitsIntoLines | main.py:189-190 | the written CSV splits back into its header and one line per participant |
| Uploads.ParseCsvLine | main.py:206-225 | the line written for a clean participant reads back as that participant |
| Uploads.HeaderColumns | main.py:196-202 | the written header reads as the columns name, email, department, position |
| Uploads.AssignmentIndex | main.py:345-346 | every assignment name is indexed, to the id of one of its rows |
| Uploads.AssignmentIndexLastWins | main.py:345-346 | a shared name maps to its last assignment row |
| Uploads.UploadSubmissions | main.py:329-411 | the entry loop computes exactly the rows and notes of the upload, and the message counts the rows |
| Uploads.IgnoredExactlyNonPrompt | main.py:359-360 | an entry is ignored exactly when its name does not end with ".txt" |
| Uploads.NoUnderscoreIsInvalidFormat | main.py:363-369 | a .txt name whose base holds no '_' is skipped as "invalid format" |
| Uploads.EveryPromptFileAccounted | main.py:358-402 | every .txt entry is either inserted or listed as skipped |
| Uploads.NonPromptEntriesIgnored | main.py:359-360 | adding a non-.txt entry changes neither rows nor skipped notes |
| Uploads.ConventionalNameParses | main.py:363-373 | `{A}-Prompt_P{zeros}{id}.txt` reads as assignment A and participant id |
| Uploads.ExampleEntryName | main.py:362-373 | "TaskA-Prompt_P001.txt" reads as ("TaskA", 1) |
| Uploads.ConventionalEntryInserted | main.py:363-397 | a conventional name with a known assignment and participant, decoded, is inserted as that submission |
| Leaderboard.RankStandings | main.py:598-603 | every row of the query is kept, in query order, and numbered from 1 |

## Left out

- SQLite: connections, SQL text, the table schema and the aggregate queries. Tables are maps, and the upload handlers return the rows they would insert. The schema file that `init_db` reads is not part of this model, so the effect of INSERT OR REPLACE on duplicate rows is not modelled.
- The SQL join of `grade_single_submission`. It is stated as the `Store.Joined` predicate: the submission, its assignment and its competition all exist.
- The SQL ordering of the leaderboard by average score. `RankStandings` receives rows in the order the query returns them.
- FastAPI routing, `BackgroundTasks` dispatch, CORS and static files. `StartGrading` returns the ids it would dispatch; the jobs themselves run through `GradeSingleSubmission`.
- Concurrency between grading jobs. The source has no guard, and the model grades one submission at a time.
- The OpenAI client. It is the oracle script. Request contents are modelled as the model name, messages, temperature, token limit and JSON mode.
- `json.loads` and `json.dumps`. Parsing is a caller-supplied function, and a reply that parses to a JSON value other than an object is encoded by what validation then does with it. A list (`key not in result` is then True) is given as an object with no keys: it is rejected at once with "Invalid grading result format", without a retry; so is a string that lacks one of the keys as a substring. A number, null or boolean makes that test raise TypeError (for instance "argument of type 'int' is not iterable"), and so does indexing a string that holds every key; these are given as a parse error carrying that message, and they are retried. JSON mode (`response_format`) makes such replies unlikely in the first place.
- `time.sleep` and `datetime.now`. Sleeps are recorded in the environment; the grading time is a parameter.
- The exception raised while the engine is set up (for instance, a missing API key). It is the `clientError` parameter.
- `progress_percent` in the progress statistics, which is floating-point division and rounding.
- PyPDF2 page extraction, `pandas`, and `to_markdown` in the Excel parser. Page texts and sheet renderings are given strings; a reader failure is a given error message.
- The "Parse error: …" branch of `parse_file`. The three parsers catch their own exceptions, so with bytes content no exception reaches it.
- The UTF-8 decoding of the uploaded CSV and of ZIP entries. The CSV arrives decoded. For an entry, decoding is given as its text or its error message.
- Opening the uploaded archive. `zipfile.ZipFile` on a corrupt archive raises `BadZipFile` outside any `try` (`main.py:353`), which answers HTTP 500; the model starts from the archive's entries.
- The quoting (`repr`) of the text in Python's `int()` error message, and the Unicode digits and underscores that `int()` also accepts. `ParseInt` reads an optional sign and ASCII digits.
- Lower-casing of letters outside ASCII. No such letter lower-cases to a letter of ".pdf", ".txt", ".xlsx", ".xls" or ".xlsm", so the types detected are the same.
- `auth_api.py`, the demo-data scripts, the test scripts, the mock grading script and the browser UI.
- ValidateGradingResult: a finite float is its exact real value, so double rounding at the 0.1 boundary is not modelled (for instance 1.0 + 0 + 0 against a total of 1.1 is accepted here, and Python rejects it). With integer scores the model is exact (`IntegerScoresExact`).
- AcceptedScoresInBounds: "within 0.1 of the sum" is over exact reals, for the reason above; the NaN total is stated.
- EvaluationAcceptsOnlyValid: validation is over exact reals, as for `ValidateGradingResult`.
- GradeSubmission: a result that passed validation is over exact reals, as for `ValidateGradingResult`.
- FinishGradedWhenCompleted: a grade that passed validation is over exact reals, as for `ValidateGradingResult`.
- GradeThenFinish: a grade that passed validation is over exact reals, as for `ValidateGradingResult`.
- GradeRecord: a grade that passed validation is over exact reals, as for `ValidateGradingResult`.
- GetGradingProgress: the live map is a parameter that no modelled code fills, so in the service as given only the persisted-status fallback is reached.
- GradeSingleSubmission: the preserved invariant is over exact reals, as for `ValidateGradingResult`.
- ParseExcel: a column label is a string or a value of another named type; an exception `to_markdown` might raise inside the loop is not modelled, since the rendered table is a given string.
- GradingEngine.ExecuteThreeShape: states the calls, outputs and errors of the three runs but not their sleeps (the 0.5 s pause after each successful run and each run's backoffs). The pauses are visible in `ExecuteThree` itself, and the backoffs of one run in `SingleRunShape`.

## Findings

| source | as written | input that shows it | evidently intended | confidence | as-written member | corrected member |
|---|---|---|---|---|---|---|
| grading_engine.py:280-286 | the total is rejected only when `abs(total - expected) > 0.1`, which is False for a NaN total | scores 50, 30, 20 with `total_score` NaN (`json.loads` reads `NaN`) is accepted and stored as completed | the total must be a finite number within 0.1 of the sum | not executed | GradingEngine.NaNTotalExampleAccepted | GradingEngine.ValidateGradingResultFinite |

The rest of the model keeps the validation as written (`ValidateGradingResult`), so that the stored grades are the ones the service stores; `ValidateGradingResultFinite` states what the check should accept.
