# risk-survey, modelled in Dafny

This project models a browser-based survey of risky choices. Each trial
shows a participant two bars: a risky option (a chance of winning points)
and a safe one (a sure amount). The participant picks one. The browser
walks through a timeline of practice trials, main trials and attention
checks and keeps one CSV row per main trial. At the end it uploads these
rows to an Express server and draws a bonus from one chosen trial. The
server decodes the rows into typed records. It can also record a bonus
payment and mark the chosen trial.

The model covers these parts, one Dafny module per concern:

- `Csv`: the server's quote-aware row parser `parseCSVRow`. It is an
  imperative loop proved equal to a recursive scanner. Beside it sit the
  browser's row escaper and the server's export escaper, with round trips
  through the parser.
- `SaveEndpoint`: the `/save` endpoint. It cuts the posted text into lines
  and drops blank ones. Each line becomes one entry keyed by the seventeen
  column names, with the endpoint's typing rules.
- `BonusStore`: the `/save-bonus` endpoint over two in-memory collections,
  as a class `Store`. It upserts the bonus record and marks the result row
  of the chosen trial.
- `Trials`: the trial, question, timeline and configuration values.
- `TrialManager`: loading the trial table, dropping 50 % rows, the
  Fisher–Yates shuffle and the fixed practice list. It also spreads the
  attention checks evenly among the main trials.
- `DataCollector`: the fifteen fields of a trial row and the bookkeeping
  that keeps rows, completed trials and the counter in step. It also holds
  the bonus draw, the retry loop of the upload and the error message shown
  when an upload fails.
- `TrialRunner`: the reward labels with thousands separators, the bar size
  classes and the scoring of attention-check answers.
- `Comprehension`: the three-question comprehension check as a class.
- `Experiment`: the session identifier, the choice of study and
  configuration file, and the bar styles.
- `DataExport`: the consent record and its plain-text report.
- `Session`: the `RiskSurveyExperiment` object as a class. Its methods
  change the trial index, the timer, the rows, the counter, the backups and
  the bonus, as the browser's methods do.

Inputs the program reads from its environment are parameters:

- Clock readings are integer milliseconds plus an ISO time string.
- Every `Math.random()` draw is a function `nat -> real` into `[0, 1)`.
- JavaScript's `parseFloat` is a function `string -> Option<real>`, where
  `None` is NaN.
- The outcome of each network attempt is a function `nat -> Attempt`.
- The configuration file is a function from path to parsed file.

The browser's `parseInt` is defined outright (`Text.ParseInt`), following
the JavaScript rules. A value a table cell may leave as NaN is an
`Option<int>`.

## Model

| member | source | states |
|---|---|---|
| Csv.ParseCSVRow | server.js:375-405 | the character loop over `i`, `current` and `inQuotes` returns exactly the fields of the recursive reading `ParseRow` |
| Csv.FieldCount | server.js:381-404 | a parsed row has at least one field: one more than the commas met outside quotes |
| Csv.ParseWithoutQuotes | server.js:393-400 | a row containing no `"` parses to its plain split at `,` |
| Csv.ScanDoubled | server.js:385-392 | inside quotes each `""` adds one `"` to the field and does not end it; only the closing `"` does |
| Csv.ScanQuoted | server.js:385-392 | a quoted, quote-doubled text reads back as that text, and the quotes themselves are not emitted |
| Csv.RowRoundTrip | public/js/experiment/DataCollector.js:65-73 | a row escaped by the browser's rule and joined with `,` parses back to exactly its original fields, whatever they hold |
| Csv.EncodeRowOneLine | public/js/experiment/DataCollector.js:66-73 | an escaped row holds a line end only if one of its fields does |
| Csv.EncodeRowNotBlank | public/js/experiment/DataCollector.js:66-73 | an escaped row of two or more fields is never blank, so the server never drops it |
| Csv.ExportEscapeField | server.js:74-79 | the export escaper changes a string exactly when it holds `,` or `"`, and the parser gives the string back |
| Csv.ExportRoundTrip | server.js:74-80 | an exported row of string and non-string cells parses back to each cell's text, non-strings untouched |
| Text.SplitJoin | server.js:112 | splitting a join of separator-free parts gives back the parts |
| Text.JoinSplit | server.js:112 | joining the parts of a split gives back the text |
| Text.SplitTerminated | public/js/experiment/DataCollector.js:250 | the concatenation of line-terminated bodies splits into the bodies and one final empty piece |
| Text.TrimStart | public/js/experiment/TrialRunner.js:160 | the result is a suffix that starts with a non-space, and every character removed is white space |
| Text.TrimEnd | public/js/experiment/TrialRunner.js:160 | the result is a prefix that ends with a non-space, and every character removed is white space |
| Text.TrimEmptyIffBlank | server.js:112 | a line trims to the empty string exactly when it is all white space |
| Text.NonBlankKeeps | server.js:112 | dropping blank lines keeps at most as many lines; every kept line is a non-blank input line, and every non-blank input line is kept |
| Text.NonBlankAppend | server.js:112 | filtering a concatenation is concatenating the filtered parts, so kept lines stay in their input order |
| Text.ParseIntText | public/js/experiment/ComprehensionCheck.js:241 | `parseInt` of the decimal text of any integer gives that integer back |
| Text.ToLower | public/js/experiment/TrialRunner.js:161 | lowercasing keeps the length and leaves no ASCII capital. Each capital becomes the small letter 32 code points on, and every other character stays where it was |
| Text.ToLowerSame | public/js/experiment/TrialRunner.js:161 | two texts lowercase alike exactly when they have the same length and agree letter by letter up to ASCII case, as `SameIgnoringCase` defines it without lowercasing |
| SaveEndpoint.KeysDistinct | server.js:109-110 | the seventeen column names are pairwise different, so each entry has seventeen fields |
| SaveEndpoint.DecodeValue | server.js:122-135 | a numeric column is null exactly for a missing value, `null` or the empty string, and otherwise holds `parseFloat`'s result. `is_bonus_trial` is true exactly for `TRUE`, `true` or `1`. Every other column holds the text, defaulting to the empty string |
| SaveEndpoint.DecodeEntry | server.js:121-136 | the entry holds exactly the seventeen keys, each decoded from the value in its column, missing values included |
| SaveEndpoint.DecodeRows | server.js:113-144 | every kept line gives exactly one entry, in order. The reported lines are exactly those whose value count is not seventeen |
| SaveEndpoint.Save | server.js:98-163 | nothing is saved exactly when no data or empty data is posted. Otherwise the entries are those of the non-blank lines, whatever their value counts |
| SaveEndpoint.FifteenFieldRow | server.js:122-135 | a fifteen-field browser row is stored with `is_bonus_trial` false and `bonus_amount` null |
| SaveEndpoint.RowsOfTerminated | server.js:112 | the non-blank lines of a concatenation of terminated one-line non-blank bodies are exactly those bodies |
| BonusStore.FirstMatch | server.js:216-218 | a document found matches the query; when none is found, no document matches |
| BonusStore.Store.constructor | server.js:212-213 | the store starts from the two given collections |
| BonusStore.Store.SaveBonus | server.js:203-261 | without a truthy participant id nothing changes and the request is refused. Otherwise the bonus collection is upserted. The trial's result row is marked exactly when a truthy bonus trial number is posted |
| BonusStore.UpsertCount | server.js:215-231 | after the upsert the participant has exactly one bonus record when there was none, and as many as before otherwise |
| BonusStore.UpsertCarriesData | server.js:220-231 | the participant's first record then carries every posted field. The collection grows by one only on insert, and no other record changes |
| BonusStore.MarkTouchesOneRow | server.js:233-248 | only the first row matching participant and trial number changes: it becomes the bonus trial, its `bonus_amount` is the parsed `outcome_amount`, or 0 when that reads as NaN or 0, and it keeps its other fields |
| BonusStore.BonusAmountDefault | server.js:243 | a missing amount, `null`, a boolean or a text `parseFloat` cannot read is stored as 0; a readable text is stored as its value |
| Trials.RandomIndex | public/js/experiment/DataCollector.js:409 | `Math.floor(u * n)` is an index below `n`, the integer part of `u * n` |
| TrialManager.BuildRecord | public/js/experiment/TrialManager.js:112-123 | the loop fills exactly the record `RecordOf` describes: each header names the value in its column, the last column winning for a repeated header. The six numeric columns are read with `parseInt` |
| TrialManager.BuildRecords | public/js/experiment/TrialManager.js:108-128 | one record per data line, in order, keyed by the header line's columns |
| TrialManager.LoadTrials | public/js/experiment/TrialManager.js:95-129 | loading fails exactly when the file is missing or has fewer than two non-blank lines. Otherwise every data line gives one record, and the records are the table's `TableRecords` |
| TrialManager.DropFifty | public/js/experiment/TrialManager.js:15-17 | exactly the records whose risk probability is not 50 are kept, none added |
| TrialManager.DropFiftyAppend | public/js/experiment/TrialManager.js:15-17 | the filter keeps the table order: filtering a concatenation is concatenating the filtered parts |
| TrialManager.DropFiftyOne | public/js/experiment/TrialManager.js:15-17 | a single record is kept unchanged exactly when its risk probability is not 50, and dropped otherwise; with `DropFiftyAppend` this fixes the kept list, order and repeats included |
| TrialManager.Shuffle | public/js/experiment/TrialManager.js:148-155 | the shuffled copy is a permutation of the input, and the input is left as it was |
| TrialManager.MainCount | public/js/experiment/TrialManager.js:25-26 | the main list has `min(mainTrials, n)` trials |
| TrialManager.FindById | public/js/experiment/TrialManager.js:137 | the index found has the id; when none is found, no record has it |
| TrialManager.PracticeRecords | public/js/experiment/TrialManager.js:131-146 | there are eight practice records, one per fixed id, in the order of the ids. Each is the first record with that id, or the first record of the table when no record has the id; none exists without records |
| TrialManager.PracticeEight | public/js/experiment/TrialManager.js:33-44 | the practice list has eight trials, numbered `practice_1` to `practice_8` |
| TrialManager.IntervalFits | public/js/experiment/TrialManager.js:73 | the interval times the number of checks plus one never passes the number of main trials |
| TrialManager.Interleave | public/js/experiment/TrialManager.js:72-85 | the splicing loop builds exactly the spread timeline `Spread` |
| TrialManager.InsertStep | public/js/experiment/TrialManager.js:77-80 | every insert position is inside the timeline, so the append branch never runs |
| TrialManager.SpreadKeepsOrder | public/js/experiment/TrialManager.js:72-85 | the timeline holds the main trials in their order and the checks in theirs, when there is a main trial. Its length is their sum |
| TrialManager.SpreadPositions | public/js/experiment/TrialManager.js:76-79 | check `c` sits at position `(c + 1) * interval + c` |
| TrialManager.PrefixKeepsDistinct | public/js/experiment/TrialManager.js:22-26 | with distinct ids in the table, no id repeats among the selected main trials |
| TrialManager.SelectMain | public/js/experiment/TrialManager.js:22-58 | the main list has `min(mainTrials, n)` trials, numbered 1, 2, …. Each is built from a kept record, with distinct ids when the table's are |
| TrialManager.SelectChecks | public/js/experiment/TrialManager.js:63-70 | checks are drawn only from a non-empty pool with a positive count: `min(count, pool)` of them, drawn from the pool |
| TrialManager.Generate | public/js/experiment/TrialManager.js:9-93 | generation fails exactly when no non-50 % record is left. Otherwise: the fixed practice list; `min(mainTrials, n)` main trials numbered 1, 2, …, each built from a kept record, with distinct ids when the table has them; the checks and their spread timeline; and no trial in the practice or main list has risk probability 50 |
| TrialManager.PracticeFromKept | public/js/experiment/TrialManager.js:29-44 | every practice trial is built from a record kept by the 50 % filter, so none has risk probability 50 |
| TrialManager.MainFromKept | public/js/experiment/TrialManager.js:15-26 | main trials built from kept records never have risk probability 50 |
| TrialManager.Build | public/js/experiment/TrialManager.js:9-129 | a missing or too-short table gives no schedule. A schedule is built exactly when the table keeps a record that is not 50 %, and it is then what `Generate` promises for the table's records |
| DataCollector.ChoiceText | public/js/experiment/DataCollector.js:17-21 | the recorded choice is `risk` or `safe` when that was chosen, and `timeout` otherwise |
| DataCollector.EvLabel | public/js/experiment/DataCollector.js:34-44 | the label is always one of `same`, `safe` and `risky` |
| DataCollector.EvLabelExact | public/js/experiment/DataCollector.js:34-44 | for whole numbers: `same` exactly when the expected values are equal, `safe` exactly when the safe one is larger, `risky` exactly when smaller |
| DataCollector.TrialRow | public/js/experiment/DataCollector.js:47-63 | a trial row has fifteen fields |
| DataCollector.TrialRowFields | public/js/experiment/DataCollector.js:31-32 | the row carries the trial number and choice and a safe probability of 100. The two positions are always opposite, risky on the left exactly when the trial says so |
| DataCollector.TrialRowAt | public/js/experiment/DataCollector.js:47-85 | the row and its completed-trial record carry the same number and choice |
| DataCollector.TrialRowOneLine | public/js/experiment/DataCollector.js:47-73 | when the participant id and size condition hold no line end: no field holds one, so the escaped row is one line |
| DataCollector.SecondsOneLine | public/js/experiment/DataCollector.js:27-28 | a time in seconds prints with no line end, comma or quote |
| DataCollector.LinesOfAt | public/js/experiment/DataCollector.js:66-75 | the `k`-th line kept is the `k`-th row, escaped and terminated |
| DataCollector.RowsMatchAppend | public/js/experiment/DataCollector.js:75-85 | appending a row and its record keeps rows and records matched, and adds one line |
| DataCollector.RowsMatchAt | public/js/experiment/DataCollector.js:75-85 | in matched records, row `k` and completed trial `k` both carry the number `k + 1` and the same choice |
| DataCollector.EligibleTrials | public/js/experiment/DataCollector.js:392-395 | exactly the trials numbered 1 to 120 with choice `risk` or `safe` are eligible |
| DataCollector.EligibleTrialsAppend | public/js/experiment/DataCollector.js:392-395 | the filter keeps the completion order: the eligible trials of a concatenation are those of the first part, then those of the second |
| DataCollector.EligibleTrialsOne | public/js/experiment/DataCollector.js:392-395 | a single trial is listed once if eligible and not at all otherwise; with `EligibleTrialsAppend` this fixes the list, order and repeats included |
| DataCollector.ConversionScales | public/js/experiment/DataCollector.js:481-499 | 100 to 600 points pay 2 to 12 dollars, 500000 to 1500000 pay 1 to 3, and no count of points pays a negative amount |
| DataCollector.ConversionTiers | public/js/experiment/DataCollector.js:485-495 | points of 500000 or more are divided by 500000, fewer by 50; exactly 500000 pays 1 dollar, 150 pays 3 and 750000 pays 1.5 |
| DataCollector.CalculateBonus | public/js/experiment/DataCollector.js:387-474 | with no eligible trial the bonus is 0 and no trial is selected. Otherwise the selected trial is the eligible trial at position `RandomIndex(pick, n)` of the `n` eligible trials in completion order. `safe` pays its converted reward, and `risk` pays the converted reward on a win and 0 on a loss |
| DataCollector.RandomIndexIs | public/js/experiment/DataCollector.js:409 | position `j` below `n` is drawn exactly when `u * n` lies in `[j, j + 1)`, so the draws choosing each position form an interval of the same width `1 / n` |
| DataCollector.RiskWinChance | public/js/experiment/DataCollector.js:436-444 | a risky trial wins exactly when the roll is at most its probability, the boundary included. 100 % always wins |
| DataCollector.BonusNonNegative | public/js/experiment/DataCollector.js:387-474 | with non-negative rewards the bonus is never negative |
| DataCollector.FetchWithRetry | public/js/experiment/DataCollector.js:153-199 | the first successful attempt is returned, numbered by its position. After `maxRetries` failures the last error is rethrown. The waits are exactly 2 s, 4 s, … between attempts and none after the last |
| DataCollector.BackoffTotal | public/js/experiment/DataCollector.js:186-190 | the waits total `1000 * (2^(n+1) - 2)` ms; with three attempts they are 2 s and 4 s |
| DataCollector.LinesOf | public/js/experiment/DataCollector.js:75 | one upload line per row |
| DataCollector.SaveErrorMessage | public/js/experiment/DataCollector.js:293-303 | the message starts with the fixed prefix. An `AbortError` or a message containing `timeout` gives the timeout text; otherwise `Failed to fetch` or `NetworkError` gives the network text; otherwise `CORS` gives the CORS text; otherwise the message itself, or `Unknown error` when it is empty |
| TrialRunner.CommasAreGroups | public/js/experiment/TrialRunner.js:7-9 | the regular expression inserts exactly the commas of grouping the digits by threes from the right |
| TrialRunner.GroupsRemoved | public/js/experiment/TrialRunner.js:7-9 | deleting the commas of the grouping gives back the digits |
| TrialRunner.FormatRoundTrip | public/js/experiment/TrialRunner.js:7-9 | deleting the commas gives back `String(n)` for every integer, and the sign stays in front |
| TrialRunner.SizeClass | public/js/experiment/TrialRunner.js:235-243 | a bar is large exactly for `both-large`, or for `risk-large` / `safe-large` when it is the named bar |
| TrialRunner.MixedConditions | public/js/experiment/TrialRunner.js:235-243 | in the mixed conditions the two bars differ; every other condition except `both-large` makes both small |
| TrialRunner.ChoiceAnswerExact | public/js/experiment/TrialRunner.js:151-168 | a multiple-choice or likert answer is right exactly when it equals the configured answer, and it is recorded as given |
| TrialRunner.ScoreText | public/js/experiment/TrialRunner.js:157-162 | a typed answer is recorded trimmed, and is right exactly when it equals the configured answer ignoring case |
| TrialRunner.TextAnswerTolerant | public/js/experiment/TrialRunner.js:157-162 | trimming the typed answer first changes nothing, and its case never changes the score |
| TrialRunner.TrimIdem | public/js/experiment/TrialRunner.js:160 | trimming twice is trimming once |
| TrialRunner.LowerIdem | public/js/experiment/TrialRunner.js:161 | lowercasing twice is lowercasing once |
| Comprehension.BlankIsNaN | public/js/experiment/ComprehensionCheck.js:241-244 | a blank answer never parses as a number |
| Comprehension.WrongAtMost | public/js/experiment/ComprehensionCheck.js:256-268 | there are never more failures than stored responses |
| Comprehension.HighlightsMatchQuestions | public/js/experiment/ComprehensionCheck.js:588-601 | each question points at exactly one option. The left bottom is pointed at exactly for the question whose answer is 0 |
| Comprehension.ComprehensionState.constructor | public/js/experiment/ComprehensionCheck.js:9-14 | the check starts at question 0 with no failures and no responses |
| Comprehension.ComprehensionState.Submit | public/js/experiment/ComprehensionCheck.js:238-270 | an empty or non-numeric answer changes nothing. A valid one appends exactly one response, right exactly when it equals the question's answer, and counts a failure exactly when wrong |
| Comprehension.ComprehensionState.Next | public/js/experiment/ComprehensionCheck.js:608-628 | the question number grows by one. After the third it is the failure screen exactly with three failures, the practice trials otherwise |
| Comprehension.ComprehensionState.HandleUnderstandingResponse | public/js/experiment/ComprehensionCheck.js:603-606 | the yes/no answer does not change the flow: it moves on exactly as `Next` does |
| Comprehension.CheckThreeAnswers | public/js/experiment/ComprehensionCheck.js:16-32 | after three valid answers the study ends exactly when none equals its answer, 150, 200 and 0 |
| Experiment.SessionId | public/js/experiment/Experiment.js:28 | the id is `ses_` followed by at most 15 characters of the time, none of them `-` or `:` |
| Experiment.SessionIdOfIso | public/js/experiment/Experiment.js:28 | for an ISO time the id is `ses_` followed by date and time to the second, separators removed |
| Experiment.StudyFromParam | public/js/experiment/Experiment.js:47 | the study is `ip` exactly when the `study` parameter is `ip`, else `risk-survey` |
| Experiment.ConfigPath | public/js/experiment/Experiment.js:49 | the `ip` study reads `config_ip_study.json`, every other `config.json` |
| Experiment.StudyAfterLoad | public/js/experiment/Experiment.js:57 | a non-empty `studyType` in the file overrides the study; otherwise it is kept |
| Experiment.QuestionsOf | public/js/experiment/Experiment.js:56 | the file's questions, or none when it lists none |
| Experiment.BarStyles | public/js/experiment/Experiment.js:68-78 | the large width, height and font are used exactly for `size-large`, and the bar's style ends with the label's |
| Experiment.LabelsDiffer | public/js/experiment/Experiment.js:68-78 | large and small labels look different exactly when the configured font sizes differ |
| DataExport.InitialConsent | public/js/experiment/DataExport.js:8-18 | the subject is `NO_ID` when missing or empty, consent is as given (false by default), and the protocol, date and version are fixed |
| DataExport.Recorded | public/js/experiment/DataExport.js:22-26 | only the decision and its time change |
| DataExport.ReportSplits | public/js/experiment/DataExport.js:28-43 | read line by line, the report gives its lines in order: subject, decision, time, protocol, date and version at fixed places |
| DataExport.ReportStatesDecision | public/js/experiment/DataExport.js:36 | the report has the line `Consent Given,YES` exactly when consent was given, and `Consent Given,NO` exactly when not |
| Session.StepAt | public/js/experiment/TrialRunner.js:14-31 | past the timeline's end: the main-trial intro after practice, the finish otherwise. Before it: the trial or the check at the index |
| Session.StepOf | public/js/experiment/TrialRunner.js:14-15 | with no timeline `runNextTrial` is stuck (it throws reading the length), and only then; with one it takes `StepAt`'s step |
| Session.NoSuccess | public/js/experiment/DataCollector.js:156-198 | three failed attempts mean the upload fails |
| Session.UploadReadsBack | public/js/experiment/DataCollector.js:243-252 | with one-line fields, the server's line filter gives back one line per recorded row, in order, and each parses to that row's fields |
| Session.RiskSurveyExperiment.constructor | public/js/experiment/Experiment.js:7-41 | the trial index is 0, the counter 1; rows, checks, main trials and completed trials are empty; the practice list and both timelines are undefined; the bonus is unset; the session id is taken from the start time |
| Session.RiskSurveyExperiment.InitializeDataTracking | public/js/experiment/DataExport.js:8-20 | the consent record is the initial record of the current subject and decision |
| Session.RiskSurveyExperiment.RecordConsent | public/js/experiment/DataExport.js:22-26 | the consent record gets the new decision and time and keeps everything else |
| Session.RiskSurveyExperiment.Init | public/js/experiment/Experiment.js:43-65 | the study and config path follow the URL parameter. A config that cannot be read shows the error page with nothing loaded. Otherwise the settings, questions and study come from the file, and the trial lists are generated from the table when it keeps a non-50 % record and left as they were when it does not |
| Session.RiskSurveyExperiment.GenerateTrials | public/js/experiment/TrialManager.js:9-93 | generation succeeds exactly when a configuration is loaded and the table keeps a non-50 % record. A failure changes nothing. A success leaves the lists and timeline that `Generated` describes for the table's records: the fixed practice list, the capped main list with no 50 % trial, the checks spread among them. The attention checks are replaced only when configured and requested |
| Session.RiskSurveyExperiment.StartPractice | public/js/experiment/TrialManager.js:157-162 | index 0, practice mode, the practice timeline, and the first step of that timeline; stuck when the practice list was never generated. A first trial clears the choice, the choice time and starts its clock; a first check starts its clock; the countdown is stopped for either and otherwise left as it was |
| Session.RiskSurveyExperiment.BeginMainTrials | public/js/experiment/TrialManager.js:164-179 | index 0, main mode, the full timeline, and the first step of that timeline; stuck when it was never generated. A first trial clears the choice and choice time, starts its clock and the countdown at the trial duration; a first check stops the countdown and starts its clock |
| Session.RiskSurveyExperiment.RunNextTrial | public/js/experiment/TrialRunner.js:14-50 | the step is the one at the index, or stuck without a timeline. Stuck or past the end, nothing changes. A trial resets the trial state and starts the countdown only outside practice. A check stops the countdown and starts its clock |
| Session.RiskSurveyExperiment.ClearTimer | public/js/experiment/TrialRunner.js:274-279 | the countdown is stopped afterwards, whatever it was before |
| Session.RiskSurveyExperiment.ResetTrialState | public/js/experiment/TrialRunner.js:245-252 | no choice, no choice time, and the trial's clock starts now |
| Session.RiskSurveyExperiment.StartTrialTimer | public/js/experiment/TrialRunner.js:254-262 | the countdown starts at the trial duration in seconds |
| Session.RiskSurveyExperiment.Tick | public/js/experiment/TrialRunner.js:262-271 | a tick takes one second off and changes no record, choice or clock. When the count reaches 0 the trial finishes as in `FinishTrial`: the timer is cleared (and restarted at the trial duration only for a next main trial), a main trial's exact row, fields, completed-trial record and rewritten backup are recorded with the counter one higher, the index moves on by one and the next step's clocks are set |
| Session.RiskSurveyExperiment.TimeUp | public/js/experiment/TrialRunner.js:267-270 | the countdown's end does exactly what `FinishTrial` does |
| Session.RiskSurveyExperiment.CountDown | public/js/experiment/TrialRunner.js:263 | the remaining time is the new count, and no record, choice or clock changes |
| Session.RiskSurveyExperiment.SelectChoice | public/js/experiment/TrialRunner.js:281-285 | the choice and the time of the click since the trial began are kept |
| Session.RiskSurveyExperiment.FinishTrial | public/js/experiment/TrialRunner.js:315-327 | the index moves on by one and the next step is run, with the timer cleared unless a next main trial restarts it at the trial duration. For a main trial exactly its escaped row, its fields, its completed-trial record (with the choice made) and the rewritten backup are recorded and the counter grows by one (`LogAfterSave`); otherwise nothing is recorded. A next trial clears the choice and choice time and starts its clock, a next check starts its clock, and otherwise the clocks are kept |
| Session.RiskSurveyExperiment.StopAndRecord | public/js/experiment/TrialRunner.js:315-323 | the countdown is stopped and a main trial is recorded exactly as `LogAfterSave` says; anything else records nothing |
| Session.RiskSurveyExperiment.MoveOn | public/js/experiment/TrialRunner.js:325-326 | the index moves on by one and the step is the one at the new index, with the timer, the choice and the clocks as that step leaves them |
| Session.RiskSurveyExperiment.RecordIfMain | public/js/experiment/TrialRunner.js:318-323 | outside practice and for a trial, its exact row, fields, completed-trial record and rewritten backup are recorded and counted (`LogAfterSave`); otherwise nothing is recorded |
| Session.RiskSurveyExperiment.AdvanceTrial | public/js/experiment/TrialRunner.js:311-313 | the trial finishes exactly as in `FinishTrial`: the same recording, backup, timer, clocks and index |
| Session.RiskSurveyExperiment.SubmitAttention | public/js/experiment/TrialRunner.js:142-177 | exactly one attention record is appended: the next number, the scored answer and the response time in seconds since the check was shown. The backup is rewritten. Then the index moves on by one, with the timer and clocks as the next step leaves them |
| Session.RiskSurveyExperiment.RecordAnswer | public/js/experiment/TrialRunner.js:142-172 | the scored answer is appended with the next number and the seconds since the check was shown, and the backup is rewritten |
| Session.RiskSurveyExperiment.SaveTrialData | public/js/experiment/DataCollector.js:14-92 | exactly one escaped row and one completed trial with the same number are appended. The counter grows by one and the backup is rewritten |
| Session.RiskSurveyExperiment.AppendRow | public/js/experiment/DataCollector.js:75-85 | the row, its line and its record are appended and the counter grows by one, so the records stay matched |
| Session.RiskSurveyExperiment.WriteBackup | public/js/experiment/DataCollector.js:95-108 | the participant's backup holds the current rows and checks |
| Session.RiskSurveyExperiment.SaveAttentionCheckData | public/js/experiment/DataCollector.js:110-130 | the record appended is numbered one past the last, so checks are numbered 1, 2, …, and carries the response time in seconds; the backup is rewritten |
| Session.RiskSurveyExperiment.FinishExperiment | public/js/experiment/DataCollector.js:201-305 | no rows or no subject shows an error and posts nothing. Otherwise the joined rows go to `/save`, then the checks to `/save-attention`. Only when both succeed is the backup removed and the bonus drawn |

## Left out

- The DOM: every page, every HTML template and the event wiring. The
  model's methods stand for what the click and input handlers do.
- `setTimeout` and `setInterval`: the countdown is a `Tick` call per
  second, and the 300 ms automatic advance is a later `AdvanceTrial` call.
  The race between the two is not modelled.
- IEEE floating point: ratios and times are exact `real` values and exact
  millisecond counts. There is no binary rounding of `p / 100 * r` and no
  floating-point printing beyond the shortest decimal of a whole number of
  milliseconds.
- JavaScript's `toLowerCase` over all of Unicode: the model lowercases the
  ASCII letters only. `trim` removes the full ECMAScript set of white-space
  and line-terminator characters, as JavaScript does.
- `wakeUpServer`: it always resolves, so after each wait it is only a
  network call and a pause, not modelled.
- localStorage failures: a backup is a map from key to content, and a write
  that throws is not modelled.
- The server's `timestamp` added to every entry, and the MongoDB calls:
  collections are in-memory sequences.
- The `/save-attention` storage and the password-gated download routes and
  pages. Only the export row escaper of the download route is modelled.
- `downloadConsentReport`: the file name built from the clock and the
  browser download.
- The full-screen request before the main trials: both of its branches do
  the same state reset, modelled once.
- BeginMainTrials: models the request's resolved promise only. When the
  `requestFullscreen()` promise is rejected (TrialManager.js:166-172) the
  source does no reset and does not begin the main trials; the model has no
  such path.
- The indifference-point study's Phase 2: the code here only declares its
  fields (`phase1RowCount` and others).
- The retry loop follows the code, not its comment about 8 s: with three
  attempts it waits 2 s and 4 s and then rethrows.
- Session.UploadReadsBack: assumes no field holds a line end. The only field
  that can hold one is the participant id, which the browser takes from the
  page; the server would split such a row in two.
- DataCollector.TrialRow: its own contract gives only the length. The
  content of the fields is stated by `TrialRowFields`, `TrialRowAt` and
  `TrialRowOneLine`.
