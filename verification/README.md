# deploy_kit in Dafny

A model of the decision logic of `deploy_kit`, a command-line tool that deploys an application to Google Cloud. It runs Cloud Run, Artifact Registry, BigQuery, Cloud SQL, GCS, Secret Manager and Firebase Hosting steps section by section, and it runs its child commands with an idle progress indicator on stderr. Every operation is a pure function over immutable datatypes, or a short method with a loop. Time is in integer milliseconds. The child process and the cloud calls are oracles passed in as parameters.

Modules, one per source file, plus helpers that give Python's string and container behaviour:

- `Config` (`config.py`): the environment as a map, `.env` files applied in order, boolean parsing, `DeployConfig.from_env`.
- `Progress` (`subprocess_utils.py`):
  - progress settings and their precedence;
  - environment parsing and frame sets;
  - the elapsed-time text;
  - the single-line renderer;
  - one wake-up of the idle indicator as a step function.
- `Runner` (`subprocess_utils.py`): the streaming loop as a fold over what the loop and the indicator observe, how a run ends (result, timeout, failure detail), and `run_command` in both modes, including the capture-mode indicator. `Runner.RunCommand` runs the streaming loop as written; `Runner.RunCommandCorrected` runs it with the late-line fix described under Findings.
- `Orchestrator` (`orchestrator.py`): section toggles and filtering, the executed/skipped/failed split of `apply_all`, the plan text, the issue classification of `check_all`.
- `Cli` (`cli.py`): the `--only` option and exit status of `deploy`, the `.gitignore` merge of `init`, and the env dump of `plan -a`.
- `Secrets`, `Project`, `ArtifactRegistry` (`gcp_secrets.py`, `gcp_project.py`, `gcp_artifact_registry.py`): the secrets file parser and secret names, the required API set, and the image URL.
- Helpers:
  - `Wrappers`: Option and Result.
  - `Text`: `str.strip` with Python's whitespace set, `lower`, `in`.
  - `Split`: `split`, `join`, `splitlines`.
  - `Order`: code-point string order and `sorted(set(...))`.
  - `Numerals`: decimal text.
  - `Dict`: an insertion-ordered dict.

Facts of the code that the model follows:

- **One set of progress settings for both modes.** `run_command` resolves the effective settings once, and both modes use them. Each setting is the call argument if given, else the environment variable, else the process default.
- **Two boolean parsers.** `_get_bool` in `config.py` does not strip and does not accept "on". `_parse_env_bool` in `subprocess_utils.py` strips and accepts "on".
- **No checker functions.** The cloud modules define none of the `check_*` functions that `check_all` calls. So in this repository every check raises and all six become critical issues (`Orchestrator.AllRaisedIsCritical`). The model takes each check's outcome as an input, so the classification is modelled for any outcome.

## Model

| member | source | states |
|---|---|---|
| Config.GetBool | deploy_kit/config.py:26-30 | An unset variable gives the default. A set one is true exactly when its lowercased value, not stripped, is one of 1, true, yes, y. |
| Config.FileOrder | deploy_kit/config.py:10-19 | An absent or empty file list means .env, .env.infra, .env.secrets in that order. Otherwise the given list is used. |
| Config.LoadDotenv | deploy_kit/config.py:22-23 | Loading one file with override: every key the file assigns takes the file's value. Every other key keeps its value, and no key is lost. |
| Config.LoadEnvFiles | deploy_kit/config.py:13-23 | After loading the files in their order, each key holds the value from the last existing file that assigns it, or its original value when none does. |
| Config.LaterFilesWin | deploy_kit/config.py:19-23 | After loading the files in order, each key holds the value from the last existing file that assigns it. If no file assigns it, it holds the original environment value. Missing files are skipped. |
| Config.MissingVars | deploy_kit/config.py:76-81 | A name is reported exactly when it is a required name that is unset or empty. |
| Config.ReadConfig | deploy_kit/config.py:83-109 | Each required field is the variable's value, or "" when unset or empty. Each image name and resource name is the variable as read, None when unset. Each toggle is `_get_bool` of its variable with its own default: off for BigQuery, Cloud SQL, GCS, Firebase and the etl job, on for Secret Manager, backend, frontend and secret configuration. The prefix is the variable, or "" when unset. |
| Config.BigqueryDefault | deploy_kit/config.py:116-118 | The fallback step changes no field except the BigQuery project. |
| Config.FromEnv | deploy_kit/config.py:74-120 | It fails exactly when some required variable is unset or empty. The error lists exactly those names, strictly sorted with no repeats. On success the four required fields hold the variables' values. |
| Config.BigqueryFallback | deploy_kit/config.py:116-118 | The BigQuery project becomes the GCP project exactly when BigQuery is enabled and no non-empty BigQuery project is set. Otherwise it is unchanged. |
| Config.FromEnvDefaults | deploy_kit/config.py:33-109 | With the required variables set and nothing else, the result is the dataclass defaults. Secret Manager, backend, frontend and secret configuration are on, everything else is off, and the prefix is "". |
| Config.UnsetFieldsDefault | deploy_kit/config.py:33-109 | Each optional variable left unset gives its field the dataclass default, whatever the other variables hold. The exception is the BigQuery project, which may instead fall back to the GCP project when BigQuery is on. |
| Progress.ConfigureCliProgress | deploy_kit/subprocess_utils.py:29-50 | Each setting given as non-None replaces the global. Each one left as None keeps it. |
| Progress.ConfigureLaws | deploy_kit/subprocess_utils.py:29-50 | A call with no arguments changes nothing. Repeating a call changes nothing more. Two calls equal one call whose later arguments win. |
| Progress.Resolve | deploy_kit/subprocess_utils.py:287-309 | Each effective setting is the call argument if given, else the environment's value if set, else the global default. |
| Progress.ResolveIsLayering | deploy_kit/subprocess_utils.py:287-309 | That precedence equals configuring the defaults with the environment's values and then with the call's arguments. |
| Progress.ParseEnvBool | deploy_kit/subprocess_utils.py:70-74 | An unset variable gives None. Any set value gives a boolean, never None. It is true exactly when the stripped, lowercased value is one of 1, true, yes, y, on. |
| Progress.BoolParsersAgree | deploy_kit/config.py:26-30 | Whatever `_get_bool` reads as true, `_parse_env_bool` (subprocess_utils.py:70-74) reads as true too. The two disagree exactly on values that are true words only after stripping or that are "on". |
| Progress.OnDiffers | deploy_kit/config.py:26-30 | A variable set to "on" is a false configuration toggle, whatever its default, but a true progress setting. |
| Progress.PaddedYesDiffers | deploy_kit/config.py:26-30 | A variable set to " yes " is a false configuration toggle but a true progress setting, because only the latter strips. |
| Progress.ParseEnvMillis | deploy_kit/subprocess_utils.py:77-84 | An unset or blank variable gives None. Otherwise the number parser's verdict is used. |
| Progress.SettingsFromEnv | deploy_kit/subprocess_utils.py:87-94 | Show comes from CLI_SHOW_PROGRESS. The style is present exactly when CLI_PROGRESS_STYLE is set, as given. Each duration is None exactly when its variable is unset or blank; otherwise it is the number parser's reading of the variable. |
| Progress.SelectFrames | deploy_kit/subprocess_utils.py:101-105 | The ASCII frames are chosen exactly when the stripped, lowercased style is "ascii". Any other style, including the empty one, gets the braille frames. |
| Progress.SelectFramesNormalises | deploy_kit/subprocess_utils.py:101-105 | Stripping or lowercasing the style never changes the frames chosen. |
| Progress.FrameSets | deploy_kit/subprocess_utils.py:97-98 | There are 10 braille frames and 4 ASCII frames, each one character, and the two sets do not share a frame. |
| Progress.ElapsedRoundTrip | deploy_kit/subprocess_utils.py:108-113 | Reading back the elapsed text gives the time. Under a minute it is exact to a tenth of a second. From a minute on it is whole seconds, shown as minutes and two-digit seconds. |
| Progress.FormatElapsed | deploy_kit/subprocess_utils.py:108-113 | The elapsed text ends in "s". It has the minutes form, with an "m", exactly from a minute on, and the decimal form, with a ".", exactly under a minute. |
| Progress.NewLine | deploy_kit/subprocess_utils.py:126-130 | A new line keeps its message, uses the frames its style selects, and starts with a high-water mark of 0. |
| Progress.Render | deploy_kit/subprocess_utils.py:132-138 | It writes "\r", then frame idx mod frame count, " ", the message, two spaces and the elapsed text. The high-water mark never decreases and afterwards covers that text. |
| Progress.HighWaterMark | deploy_kit/subprocess_utils.py:132-138 | Over any sequence of renders, the mark ends at the maximum of its starting value and the lengths of all texts rendered. |
| Progress.ClearText | deploy_kit/subprocess_utils.py:140-144 | Clearing writes nothing when the mark is 0. Otherwise it writes "\r", exactly mark-many spaces, and "\r". |
| Progress.StartIndicator | deploy_kit/subprocess_utils.py:152-168 | A new indicator is hidden at frame 0. Its interval is raised to at least 20 ms and its idle threshold to at least 0. |
| Progress.Tick | deploy_kit/subprocess_utils.py:176-194 | Below the idle threshold: the indicator ends hidden, clearing only if it was shown, the frame index stays, and the sleep is min(interval, max(threshold - idle, 20 ms)). Otherwise one frame is drawn, the indicator is shown, the index advances by one, and it sleeps one interval. |
| Progress.TickDrawsElapsed | deploy_kit/subprocess_utils.py:176-194 | With `_format_elapsed` as the formatter, a frame drawn at an idle wake-up shows the whole tenths elapsed since the start. That text reads back as those tenths under a minute and as whole seconds from a minute on. |
| Progress.ClearIndicator | deploy_kit/subprocess_utils.py:199-208 | Clearing or stopping always leaves the indicator hidden, changes nothing else, and writes nothing when it was already hidden. |
| Progress.FramesDrawn | deploy_kit/subprocess_utils.py:176-194 | Over any sequence of wake-ups, the frame index advances by exactly the number of idle wake-ups. The indicator ends shown exactly when the last wake-up was idle. |
| Progress.IdleWakeDraws | deploy_kit/subprocess_utils.py:176-194 | If any wake-up comes at least the idle threshold after the last activity, the loop writes something to stderr and ends past its starting frame index. |
| Progress.RunTicks | deploy_kit/subprocess_utils.py:176-194 | Running the loop over any wake-ups keeps the message, the frames, the interval, the idle threshold and the start time. The indicator stays valid. |
| Runner.StepStream | deploy_kit/subprocess_utils.py:384-405 | A delivered line clears a shown indicator first. It is then kept, echoed and recorded as activity. This holds whether the line was queued or fetched in the wait after the child exited. An indicator wake-up leaves the kept lines, stdout and the activity time unchanged. Without an indicator nothing goes to stderr. |
| Runner.Consume | deploy_kit/subprocess_utils.py:374-405 | The corrected loop keeps an indicator exactly when it started with one. Without an indicator it writes nothing to stderr. |
| Runner.ConsumeAsWritten | deploy_kit/subprocess_utils.py:374-405 | The loop as written keeps an indicator exactly when it started with one. Without an indicator it writes nothing to stderr. |
| Runner.ConsumeKeepsLines | deploy_kit/subprocess_utils.py:372-405 | The kept lines are exactly the delivered lines, in order, until the loop leaves at the sentinel or at an empty wait after exit. The echoed text is their concatenation. |
| Runner.ConsumeAsWrittenLines | deploy_kit/subprocess_utils.py:384-394 | As written, the loop keeps exactly the queued lines until it leaves, and echoes exactly their concatenation. Whatever the wait after exit fetches is dropped. |
| Runner.LateLineLostAsWritten | deploy_kit/subprocess_utils.py:384-394 | As written, a last line fetched in the wait after exit is lost from the output, and the corrected loop keeps it. |
| Runner.AsWrittenAgrees | deploy_kit/subprocess_utils.py:384-394 | When no wait after exit fetches anything, the loop as written and the corrected loop keep the same lines. |
| Runner.StreamDetail | deploy_kit/subprocess_utils.py:427-429 | A streaming failure has a detail exactly when the stripped combined output is non-empty. The detail is that text under the stdout/stderr label: non-empty, stripped, and a contiguous part of the combined output. |
| Runner.CaptureDetail | deploy_kit/subprocess_utils.py:476-483 | A capture-mode failure has a detail exactly when stderr or stdout has text after stripping. The detail is labelled stderr exactly when stderr has text; otherwise it is labelled stdout. Its text is non-empty, stripped, and a contiguous part of the labelled stream. |
| Runner.FinishStream | deploy_kit/subprocess_utils.py:407-434 | The run succeeds exactly on exit code 0, with stdout the concatenated lines and stderr "". Passing the deadline is a timeout error carrying the timeout argument and the command line (lines 378-380, 415-417). A non-zero code is a failure carrying the code, the command line and the detail. |
| Runner.FinishCapture | deploy_kit/subprocess_utils.py:459-486 | The run succeeds exactly on exit code 0, with the captured streams. A timeout is an error carrying the timeout argument and the command line. A non-zero code is a failure carrying the code, the command line and the detail. |
| Runner.NewIndicator | deploy_kit/subprocess_utils.py:349-358 | The indicator either mode starts is hidden at frame 0, started at the call's start. Its message is the call's message or the default. Its frames are those of the effective style. Its interval and idle threshold are the effective values, clamped. |
| Runner.IndicatorPrecedence | deploy_kit/subprocess_utils.py:287-309 | The indicator's frames and idle threshold come from the call's argument if given, else the environment variable, else the process default. |
| Runner.StopAll | deploy_kit/subprocess_utils.py:418-425 | Stopping in the `finally` block leaves any indicator hidden and otherwise unchanged. A hidden indicator writes nothing. |
| Runner.CaptureWakes | deploy_kit/subprocess_utils.py:437-452 | In capture mode every wake-up sees the start time as the last activity. |
| Runner.CaptureWakeAt | deploy_kit/subprocess_utils.py:437-452 | Every wake-up event of the child becomes a capture-mode wake-up at the same time. |
| Runner.CaptureIndicator | deploy_kit/subprocess_utils.py:437-490 | The capture-mode indicator ticks while the child runs, then stops hidden. Without an indicator nothing is written. |
| Runner.RunCommand | deploy_kit/subprocess_utils.py:265-490 | A missing program is a not-found error naming cmd[0]. The run succeeds exactly on exit 0: in streaming mode stdout is the queued lines the loop as written keeps, joined (a line fetched in the wait after exit is not among them) and stderr is "", in capture mode the captured streams. A deadline is a timeout error carrying the timeout argument. A non-zero exit is a failure with the code, the command line and the mode's detail, in streaming mode over those same kept lines. An indicator starts exactly when showing is on, stderr is a terminal, and the program was found or the run is in capture mode. With showing off or no terminal, nothing is written to stderr. Every started indicator ends hidden. |
| Runner.RunCommandCorrected | deploy_kit/subprocess_utils.py:265-490 | With the streaming loop corrected, a streaming run finishes over every delivered line, including one fetched in the wait after exit, and succeeds with those lines joined as stdout. Capture mode and a missing program give the same run as `run_command`. The indicator starts under the same conditions and ends hidden. |
| Runner.RunLosesLateLine | deploy_kit/subprocess_utils.py:384-394 | A streaming child whose only line arrives in the wait after exit and which exits 0: as written the run succeeds with empty stdout, and the corrected run succeeds with that line as stdout. |
| Runner.CorrectedAgrees | deploy_kit/subprocess_utils.py:384-394 | When no wait after exit fetches anything, `run_command` as written and the corrected run give the same result. |
| Runner.CaptureShowsProgress | deploy_kit/subprocess_utils.py:437-452 | In capture mode with an indicator, a wake-up at least the effective idle threshold after the start draws a frame. Something is written to stderr and the final frame index is at least 1. |
| Orchestrator.SectionEnabled | deploy_kit/orchestrator.py:35-52 | Each section follows its toggle. Firebase needs both enable_firebase and deploy_frontend. Secrets needs both enable_secret_manager and configure_secrets. Any other name is disabled. |
| Orchestrator.FilterSections | deploy_kit/orchestrator.py:55-62 | The result is a subsequence of ALL_SECTIONS in canonical order and every element is enabled. With a non-empty request every element was requested. An absent or empty request yields all enabled sections. |
| Orchestrator.Partition | deploy_kit/orchestrator.py:119-178 | The loop files each section of the list, in order, as skipped, failed or executed. The three lists equal the reference filters by outcome. |
| Orchestrator.HavingMembers | deploy_kit/orchestrator.py:119-178 | Each of those lists keeps canonical order and holds exactly the sections with its outcome. |
| Orchestrator.ApplyPartition | deploy_kit/orchestrator.py:115-178 | Every section is in exactly one list. It is skipped exactly when not selected, failed exactly when selected and its steps raise, and executed exactly when selected and they do not. |
| Orchestrator.ApplyAll | deploy_kit/orchestrator.py:103-209 | The executed, skipped and failed lists are the partition of ALL_SECTIONS. has_failures is true exactly when the failed list is non-empty. The summary is built from the three lists. |
| Orchestrator.Block | deploy_kit/orchestrator.py:185-206 | A summary block lists one "- name" line per entry in order, and "- (none)" when the list is empty. |
| Orchestrator.BackendImageFailsAsWritten | deploy_kit/orchestrator.py:127-152 | As written, the backend and etl sections fail whenever a backend image name is set, even if no cloud step raises. |
| Orchestrator.NothingFailsWithoutRaising | deploy_kit/orchestrator.py:126-176 | With the source directory supplied, no section fails when no step raises. |
| Orchestrator.ApplyBackendFailsAsWritten | deploy_kit/orchestrator.py:127-152 | As written, `apply_all` files a selected backend section with an image name as failed. |
| Orchestrator.ApplyNothingFails | deploy_kit/orchestrator.py:119-178 | With the source directory supplied and no step raising, `apply_all`'s failed list is empty, whatever is selected. |
| Orchestrator.PlanAllAsWrittenRaises | deploy_kit/orchestrator.py:65-80 | As written, the plan raises AttributeError for backend_source_dir whatever the configuration. |
| Orchestrator.PlanSectionLines | deploy_kit/orchestrator.py:93-98 | The plan ends with exactly one "- name: STATUS" line per section of ALL_SECTIONS, in order, with ENABLED exactly for the enabled sections. |
| Orchestrator.ReadAttrs | deploy_kit/orchestrator.py:65-80 | Reading attributes in order succeeds exactly when the dataclass defines all of them. Otherwise the error names one that was read and is not defined. |
| Orchestrator.PlanAllAsWritten | deploy_kit/orchestrator.py:65-100 | As written, a failure is an AttributeError for an attribute the plan reads and the dataclass lacks. A success would be the plan text. |
| Orchestrator.PlanAll | deploy_kit/orchestrator.py:65-100 | When the project, region and source directories hold no newline, the plan text splits on newlines back into exactly its lines: heading, project, region, config summary and one line per section. |
| Orchestrator.PlanLinesSplit | deploy_kit/orchestrator.py:65-100 | The same split property, as a lemma over the plan's lines. |
| Orchestrator.ClassifyProject | deploy_kit/orchestrator.py:231-241 | A project/API result is critical exactly when it contains "Project: 없음", "확인 불가" or "조회 실패". Otherwise it is a warning exactly when it contains "API: 비활성화". |
| Orchestrator.ClassifyRegistry | deploy_kit/orchestrator.py:252-261 | A missing repository is a warning. Otherwise an unverifiable or failed lookup is critical. The status lands in at most one list. |
| Orchestrator.ClassifyUnsetOrMissing | deploy_kit/orchestrator.py:276-281 | The rule GCS and BigQuery share, applied with the bucket-name markers and lines 292-300's dataset markers. A status is critical exactly when it names the unset setting. It is a warning exactly when it does not but names the missing resource. Nothing else is reported. |
| Orchestrator.ClassifySql | deploy_kit/orchestrator.py:311-319 | A Cloud SQL result is critical exactly when it reports something missing, unset or unverifiable. Nothing is a warning. |
| Orchestrator.ClassifySecrets | deploy_kit/orchestrator.py:330-337 | A missing secret is a warning. Nothing is critical. |
| Orchestrator.Classify | deploy_kit/orchestrator.py:242-246 | A check that raised is exactly one critical issue, "<name>: 체크 중 예외 발생: <message>". |
| Orchestrator.StatusLine | deploy_kit/orchestrator.py:356-362 | Critical issues take precedence over warnings in the status line. The clean status appears only when both lists are empty. |
| Orchestrator.CheckAll | deploy_kit/orchestrator.py:212-388 | has_issues is true exactly when there is a critical issue or a warning. The summary part opens with the status line for the issues found. |
| Orchestrator.AllRaisedIsCritical | deploy_kit/orchestrator.py:231-388 | When all six checks raise, there are six critical issues, no warnings, and has_issues is true. |
| Cli.ParseOnly | deploy_kit/cli.py:123-125 | A blank value gives None. Otherwise the result is the kept names of the comma-separated parts, each non-empty, stripped and comma-free. |
| Cli.KeepNamesMembers | deploy_kit/cli.py:125 | A name is kept exactly when it is the non-empty stripped form of some part. |
| Cli.ParseOnlyParts | deploy_kit/cli.py:123-125 | For any comma-free parts joined by ",", the result is None exactly when there is at most one part and it is blank. Otherwise it is the parts stripped, with the blank ones dropped, in order. |
| Cli.ParseOnlyJoin | deploy_kit/cli.py:123-125 | Parsing names joined by "," gives the names back, for any non-empty list of non-empty, stripped, comma-free names. |
| Cli.InvalidSections | deploy_kit/cli.py:128 | The invalid names are exactly the requested names not in ALL_SECTIONS, strictly sorted without repeats. |
| Cli.Deploy | deploy_kit/cli.py:115-149 | A configuration error exits 1 with the load-failure message on stderr. Unknown section names exit 1 with the invalid-name message before apply_all runs. Otherwise apply_all runs, stdout is its summary, and the exit status is 0 exactly when no section failed. Each message ends with the newline `click.echo` adds. |
| Cli.MissingPatterns | deploy_kit/cli.py:181-193 | The missing patterns are exactly those not among the existing lines, in canonical order. |
| Cli.GitignoreMerge | deploy_kit/cli.py:183-208 | The file is left alone exactly when it is non-empty and lacks no pattern. A rewrite keeps the existing content as a prefix and ends in a newline. |
| Cli.MergeLines | deploy_kit/cli.py:192-208 | The new content's lines are the existing lines (with a final newline added), then a blank line, the header comment, and exactly the missing patterns. |
| Cli.MergeKeepsLines | deploy_kit/cli.py:192-208 | When the existing content ends in "\n" or in no line break at all, the old lines are kept exactly, followed by the block. |
| Cli.MergeIdempotent | deploy_kit/cli.py:192-208 | Merging the merged content again leaves it alone. |
| Cli.Shown | deploy_kit/cli.py:69-73 | An entry is shown exactly when its key is in the file with a value. Keys written without a value are skipped. |
| Cli.ShownSorted | deploy_kit/cli.py:69 | Shown entries come in strictly increasing key order. |
| Cli.DumpSection | deploy_kit/cli.py:63-74 | A file's section is its "## name" header, then the placeholder line for an empty file or its valued entries in key order, then a blank line. |
| Cli.EnvDump | deploy_kit/cli.py:62-75 | The dump is the joined sections with trailing whitespace removed, and nothing else removed. |
| Cli.EnvDumpStart | deploy_kit/cli.py:63-64 | The dump opens with the .env.infra header. |
| Secrets.ParseLine | deploy_kit/gcp_secrets.py:33-39 | Blank lines, "#" comments and lines without "=" give nothing. Otherwise the key and value split at the first "=", both stripped, so the key has no "=". |
| Secrets.ParseLineFields | deploy_kit/gcp_secrets.py:33-39 | Any line key=value whose key has no "=" and does not start a comment parses to the stripped key and the stripped value. This holds even when the value contains "=". |
| Secrets.AddLine | deploy_kit/gcp_secrets.py:33-39 | A line that does not parse leaves the dict unchanged. A parsed line's key is in the result, no key is lost, and at most one entry is added. |
| Secrets.ParseLines | deploy_kit/gcp_secrets.py:31-39 | Reading the lines gives a dict with distinct keys and at most one entry per line. |
| Secrets.ParseLinesKeys | deploy_kit/gcp_secrets.py:31-39 | Every line that parses has its key in the dict. |
| Secrets.LoadSecrets | deploy_kit/gcp_secrets.py:21-41 | A missing file gives an empty dict. Keys are distinct. |
| Secrets.LastLineWins | deploy_kit/gcp_secrets.py:32-39 | Each key maps to the value of the last line that sets it, so a later duplicate overwrites an earlier one. |
| Secrets.EnsureSecrets | deploy_kit/gcp_secrets.py:44-65 | Nothing is created unless Secret Manager is enabled and secrets are configured, or when the file is missing or empty. Otherwise there is one name per secret in file order: prefix+key with a non-empty prefix, else the key. |
| Secrets.EnsureSecretsDistinct | deploy_kit/gcp_secrets.py:58-65 | The reported secret names are pairwise distinct. |
| Project.RequiredApis | deploy_kit/gcp_project.py:36-46 | The API list is strictly sorted, so it has no repeats, and has the same elements as the accumulated list. |
| Project.BaseAlwaysRequired | deploy_kit/gcp_project.py:17-21 | The run, artifactregistry and secretmanager APIs are always required. |
| Project.OptionalByToggle | deploy_kit/gcp_project.py:23-44 | bigquery, sqladmin and storage are required exactly when their toggle is set. Both firebase APIs are required exactly when enable_firebase is set. |
| Project.OnlyKnownApis | deploy_kit/gcp_project.py:17-46 | No API outside the five lists is ever required. |
| ArtifactRegistry.ImageUrl | deploy_kit/gcp_artifact_registry.py:27-37 | The URL is region-docker.pkg.dev/project/repo/service:latest. |
| ArtifactRegistry.UrlShape | deploy_kit/gcp_artifact_registry.py:34 | The URL starts with the host, project, repository and service path, and ends with ":latest". |
| ArtifactRegistry.ImageUrlIgnoresBuildInputs | deploy_kit/gcp_artifact_registry.py:27-37 | The image name and build context do not change the URL: it is always the host, project, repository and service path tagged ":latest". |
| ArtifactRegistry.ImageUrlParts | deploy_kit/gcp_artifact_registry.py:34 | When no field holds a "/", splitting the URL on "/" gives the host, project, repository and tagged service back. |

## Left out

- **Threads, queues, process control and clocks.** The reader thread, queue timeouts, `Popen`/`run`, `kill`/`wait`/`poll`, `time.monotonic` and `time.sleep` are left out. The reader's queue is a finite sequence of events ending in the sentinel. An indicator wake-up is an event, and the wall clock is the timestamps in the events. How the child ended is an input, which includes whether the deadline passed.
- **Floating point.** Durations are integer milliseconds. `_parse_env_float` is a number parser passed in as a parameter. `_format_elapsed` is modelled on whole tenths of a second; `{seconds:0.1f}` rounding of other readings under a minute is not modelled.
- Progress.Tick: the elapsed text of a frame comes from a formatter parameter, the `fmt` of `Runner.Ambient`, and the model promises nothing about it in general. `Progress.TickDrawsElapsed` ties it to `_format_elapsed` when the formatter is `Progress.ElapsedText`; that is exact for readings that are whole tenths of a second or a minute or more.
- **`textwrap.shorten`.** It is used for the default progress message and the 2000-character failure detail. The default message is an input, and the detail is kept unshortened.
- **Python `lower()`.** It is modelled on ASCII letters only.
- **Library and I/O calls.** `click`, `dotenv` parsing, reading and writing files, `os.chdir`, `sys.exit`, `logging`, and the copying of env templates in `init` are left out. Files are passed as parsed maps or as text. Exit statuses and messages are returned values.
- **Secrets file newline translation.** The file is read after Python's newline translation: its text is given, and lines are split on "\n".
- **The `Spinner` class.** It is not used by any modelled operation.
- **The `plan` and `check` command wrappers.** Only their echo and exit status remain once `plan_all` and `check_all` are modelled.
- **Stub modules.** `gcp_auth`, `gcp_cloud_run`, `gcp_bq`, `gcp_sql`, `gcp_gcs` and `firebase_hosting` only log and return. Their calls are steps that an oracle may make raise. The `check_*` functions that `check_all` calls do not exist in those modules, so their results are inputs.
- **Error message text of `run_command`.** The failures are values carrying their parts (program, timeout argument, command line, exit code, detail). The Korean message text is not built, and `str()` of the timeout is left out.
- **Lines the reader queues after the short wait.** When the child has exited and the 0.2-second wait fetches nothing, the loop leaves even if the reader has not yet queued the sentinel. Lines queued later are not read. Both the model and the corrected loop stop there, as the code's design intends.
- **Queue timeouts while the child runs.** They only re-enter the loop, so they are not events.
- **Runner.RunCommand requires a non-empty command.** In streaming mode `Popen` (deploy_kit/subprocess_utils.py:317) raises IndexError on an empty command before the indicator exists. In capture mode the indicator starts (lines 443-451), `subprocess.run` (line 454) raises IndexError, which the `except FileNotFoundError` at line 468 does not catch, and the `finally` at lines 488-490 stops the indicator. Neither case is a not-found, timeout or failure result, so the empty command is excluded.
- **Orchestrator.CheckAll only models the summary part of the report.** The per-check detail lines that `-a` adds are not modelled.
- **Stale tests.** Test expectations about configuration fields and helpers that the code does not have are not modelled.

## Findings

| source | as written | input that shows it | evidently intended | confidence | as-written member | corrected member |
|---|---|---|---|---|---|---|
| deploy_kit/orchestrator.py:78-80 | `plan_all` reads `cfg.backend_source_dir` and `cfg.frontend_source_dir`, but `DeployConfig` defines neither attribute | any configuration: `plan_all(cfg)` raises AttributeError before returning | the plan reports the two source directories, then one ENABLED/SKIPPED line per section | not executed | Orchestrator.PlanAllAsWrittenRaises | Orchestrator.PlanSectionLines |
| deploy_kit/subprocess_utils.py:388-394 | after a queue timeout with the child exited, the item fetched by `q.get(timeout=0.2)` is followed by `continue`, so it is never processed | the reader queues the child's last line just after the loop's 0.1-second wait times out and `poll()` reports exit: that line is fetched, dropped, and missing from stdout and from the result | the fetched line is echoed and kept like any other, and a fetched sentinel ends the loop | not executed | Runner.RunLosesLateLine | Runner.RunCommandCorrected |
| deploy_kit/orchestrator.py:139,150 | the backend and etl sections pass `context_dir=cfg.backend_source_dir` to `build_and_push_image`, an attribute `DeployConfig` does not define | BACKEND_IMAGE_NAME=api with the backend section selected and no cloud step raising: the section lands in the failed list | the image is built from the backend source directory, and the section fails only when a cloud step raises | not executed | Orchestrator.BackendImageFailsAsWritten | Orchestrator.NothingFailsWithoutRaising |
