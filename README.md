# Codex task bridges, chat commands, token watchdog and band dashboards — a Dafny model

This project models the decision logic of a small home-automation toolkit
that hands coding tasks to a Codex command-line agent:

- **The HTTP bridge** (`scripts/codex_http_bridge.py`) accepts jobs over
  HTTP and keeps them in a job store, a map from id to record plus a FIFO
  queue of ids. A worker thread takes ids off the queue, runs the Codex
  command and records how the job ended. Requests are authenticated by a
  bearer token or an `X-Bridge-Token` header.
- **The GitHub task worker** (`scripts/github_task_worker.py`) picks open
  "task" issues. It moves their state labels and runs Codex on a branch named
  after the issue. It then pushes and opens a pull request.
- **Three chat front-ends** turn chat messages into bridge or GitHub calls:
  - a Discord bot (`scripts/discord_codex_bridge_bot.py`);
  - an OpenClaw HTTP bridge client (`scripts/openclaw_http_bridge.py`);
  - an OpenClaw GitHub issue client (`scripts/openclaw_github_bridge.py`).
- **A token watchdog** (`scripts/token-watchdog.js`) is a one-minute
  sliding-window rate limiter with a 30-second cooldown.
- **Two band dashboards** (`band-dashboard/band_dashboard.py` and
  `band-dashboard/band_dashboard_pro.py`) aggregate posts per author. They
  score members 10/3/1 for a post, a comment and a like, and rank them.

Everything outside the programs' own logic is a parameter of the model. That
covers sockets, subprocesses, git, the GitHub/Discord/HTTP clients, the JSON
codec, clocks, uuids and files:

- a clock reading is `now`/`since`;
- a fresh job id is `newId`;
- what Codex did is an `Outcome`;
- what GitHub answered is a `World`;
- a polled job record is an element of `polls`.

The store, the watchdog and the dashboards are classes whose methods update
their fields. Each method is proved equal to a specification function on the
old state. The properties are lemmas about those functions.

Files, one module each:

| file | module | models |
|---|---|---|
| `wrappers.dfy` | `Wrappers` | `Option` / `Result` |
| `text.dfy` | `Text` | Python's `strip`, `split`, `join`, `lower`, `int`, `str`, `sorted(set(...))` and the regex runs the scripts search for, plus the shared truncation |
| `json.dfy` | `Json` | scalar JSON values, `str()` of them, job records as the chat clients read them |
| `env_config.dfy` | `EnvConfig` | `parse_env_file` / `load_config` (four copies of the same code) and the HTTP bridge's `load_env_file` |
| `job_store.dfy` | `JobStore` | `Job`, `JobStore` (`create`, `get`, `update`, `to_dict`, `metrics`) |
| `codex_runner.dfy` | `CodexRunner` | `CodexRunner.run`: argv and stdin from the command and the prompt mode |
| `worker.dfy` | `Worker` | one turn of the `start_worker` loop |
| `bridge_http.dfy` | `BridgeHttp` | `auth_ok`, `read_json`, `do_GET`, `do_POST` |
| `github_worker.dfy` | `GithubWorker` | slugs, issue selection, label arithmetic, `execute_codex`'s checks, `process_issue` |
| `discord_bot.dfy` | `DiscordBot` | the channel allowlist, channel guard, status message and settings |
| `openclaw_http.dfy` | `OpenclawHttp` | `extract_job_id`, `format_job_status`, `wait_until_done`, `handle_command` |
| `openclaw_github.dfy` | `OpenclawGithub` | `parse_issue_number`, `parse_task_cmd`, `create_issue`, `handle_command`, `/cancel` labels |
| `token_watchdog.dfy` | `TokenWatchdog` | the `TokenWatchdog` class |
| `band_posts.dfy` | `BandPosts` | post fields with their defaults, per-author filters, the score, the stable descending sort and top-N |
| `band_dashboard.dfy` | `BandDashboard` | `BandDashboard.calculate_ranking` |
| `band_dashboard_pro.dfy` | `BandDashboardPro` | `BandDashboardPro.calculate_stats` and `get_monthly_trend` |

A job whose runner raised is marked failed with the error text, and it keeps
the empty stdout and stderr it was created with (`Worker.RaisedRecord`).

## Model

| member | source | states |
|---|---|---|
| JobStore.Store.constructor | scripts/codex_http_bridge.py:42-46 | a new store has no jobs and an empty queue, satisfies the store invariant, and keeps the output limit it was given |
| JobStore.CreateSpec | scripts/codex_http_bridge.py:48-53 | a job created for a fresh id is queued and has no start time, finish time, return code or error, and empty stdout/stderr; its id is the new tail of the queue and the old queue is kept in front of it; the keys grow by exactly that id and every other record is unchanged |
| JobStore.CreatePreservesValid | scripts/codex_http_bridge.py:48-53 | creation keeps the store invariant: every record is filed under its own id and is well formed for its status, the queue holds each queued id exactly once, and nothing is running |
| JobStore.Store.Create | scripts/codex_http_bridge.py:48-53 | the method returns the new queued record and leaves the store as the creation function says |
| JobStore.CreateMetrics | scripts/codex_http_bridge.py:78-82 | after a creation the queued count is one higher and the running count is unchanged |
| JobStore.Store.Lookup | scripts/codex_http_bridge.py:55-57 | `get` answers nothing exactly for an unknown id, and otherwise the stored record |
| JobStore.UpdateSpec | scripts/codex_http_bridge.py:59-63 | `update` succeeds exactly when the id is known (otherwise it fails like the `KeyError`); the queue, the key set and every other record stay as they were |
| JobStore.UpdateKeepsUnnamed | scripts/codex_http_bridge.py:59-63 | a field that no assignment names keeps its value, and the id, prompt and creation time never change |
| JobStore.UpdateSetsNamed | scripts/codex_http_bridge.py:59-63 | each named field ends with the value of the last assignment that names it |
| JobStore.ApplyAllSnoc | scripts/codex_http_bridge.py:62-63 | the `setattr` loop over one more assignment is the loop over the others followed by that assignment |
| JobStore.Store.Update | scripts/codex_http_bridge.py:59-63 | the method succeeds exactly when the id was present; on success the store is the update function's result, and on failure nothing changes |
| JobStore.StatusOfName | scripts/codex_http_bridge.py:31 | a status read back from its name has that name |
| JobStore.ToDict | scripts/codex_http_bridge.py:65-76 | the snapshot has exactly the nine public keys and never exposes the prompt |
| JobStore.DictRoundTrip | scripts/codex_http_bridge.py:65-76 | the snapshot together with the prompt determines the record: reading it back gives the same job |
| JobStore.MetricsOf | scripts/codex_http_bridge.py:78-82 | queued + running never exceeds the number of jobs |
| JobStore.Store.Metrics | scripts/codex_http_bridge.py:78-82 | the counts are exactly the numbers of jobs whose status is queued and running |
| JobStore.WithStatusReplace | scripts/codex_http_bridge.py:78-82 | replacing one record changes a status count only by the old and the new record's membership |
| Text.TrimTextSpec | scripts/codex_http_bridge.py:132-135 | the text is unchanged when it fits; otherwise it is exactly its first `max_chars` characters and the 18-character marker, so the result never exceeds `max_chars + 18` |
| CodexRunner.WordsAreWords | scripts/codex_http_bridge.py:93 | every word of the split command is non-empty and contains no blank |
| CodexRunner.WordsKeepText | scripts/codex_http_bridge.py:93 | the words concatenated are the command with its blanks removed, so no character is lost or invented |
| CodexRunner.WordsEmptyIff | scripts/codex_http_bridge.py:93-95 | the command has no words exactly when it is all blanks |
| CodexRunner.PlanSpec | scripts/codex_http_bridge.py:92-118 | the runner refuses exactly an empty command or a mode other than "arg"/"stdin"; the empty command is reported first; "arg" appends the prompt as the last argument and has no input; "stdin" keeps the argv and feeds the prompt as input |
| CodexRunner.Run | scripts/codex_http_bridge.py:92-118 | an empty command raises "CODEX_COMMAND is empty" and, for a non-empty command, a mode other than "arg" or "stdin" raises the prompt-mode error, both without running anything; otherwise the result is what the process did (its argv and input are PlanSpec's) |
| Worker.StartedRecord | scripts/codex_http_bridge.py:146 | the first update marks the job running with its start time and changes nothing else |
| Worker.CompletedRecord | scripts/codex_http_bridge.py:148-156 | a returned run records succeeded exactly for exit code 0 (failed otherwise), the code, both outputs trimmed, and the finish time |
| Worker.RaisedRecord | scripts/codex_http_bridge.py:157-163 | a raised run records failed, the error text and the finish time, and nothing else |
| Worker.FinishedSpec | scripts/codex_http_bridge.py:141-163 | a queued job ends terminal with both timestamps; it succeeded exactly when the process exited 0; a completed run has a return code and no error, and a raised run has an error, no return code and untouched outputs; the record stays well formed |
| Worker.StepPreservesValid | scripts/codex_http_bridge.py:138-165 | one worker turn keeps the store invariant |
| Worker.StepNeverRegresses | scripts/codex_http_bridge.py:138-165 | a turn keeps the set of jobs, never moves a status backwards, and leaves the job at the head of the queue terminal; every other record is left exactly as it was, and a record that has ended is never touched again |
| Worker.StepIsFifo | scripts/codex_http_bridge.py:141 | a job submitted while others wait does not affect the next turn: creating then stepping equals stepping then creating |
| Worker.StepRunsLoneJob | scripts/codex_http_bridge.py:138-165 | a job created on an empty queue is the one the next turn runs to its end |
| Worker.StepMetrics | scripts/codex_http_bridge.py:138-165 | a turn on a non-empty queue lowers the queued count by one and leaves none running |
| Worker.Step | scripts/codex_http_bridge.py:139-165 | the method reports a run exactly when the head id has a record, and leaves the store as one turn of the specification says |
| BridgeHttp.AuthSpec | scripts/codex_http_bridge.py:172-177 | a value starting with `Bearer ` is accepted exactly when its stripped remainder equals the token, whatever `X-Bridge-Token` holds; any other value is accepted exactly when `X-Bridge-Token` is non-empty and equals the token; a right token in either header is accepted, and blanks around a bearer token are forgiven; nothing is accepted unless one header carries the token; a wrong bearer token is not rescued by a right `X-Bridge-Token`; no headers means no access |
| BridgeHttp.UrlPath | scripts/codex_http_bridge.py:206 | the path never contains the query or fragment marker |
| BridgeHttp.UrlPathSpec | scripts/codex_http_bridge.py:206 | a plain path followed by a query or a fragment parses back to that path |
| BridgeHttp.ReadJson | scripts/codex_http_bridge.py:180-186 | without `Content-Length` the body reads as the empty object; a `Content-Length` that `int` rejects fails with `int`'s own message |
| BridgeHttp.ReadJsonBadLength | scripts/codex_http_bridge.py:180-181 | `Content-Length: abc` is reported as "invalid literal for int() with base 10: 'abc'" |
| BridgeHttp.GetSpec | scripts/codex_http_bridge.py:205-224 | `/health` answers 200 with the exact queued and running counts and needs no credentials; every other unauthenticated GET gets 401, whether or not the job exists; a 200 on any other path is an authorised snapshot of a stored job; an authorised GET of `/jobs/<id>` answers 200 with exactly the stripped id's snapshot, or 404 "job not found" for an unknown id, and any other path answers 404 "not found" |
| BridgeHttp.DecideOrder | scripts/codex_http_bridge.py:226-234 | POST to any path but `/jobs` gets 404 before credentials are checked; bad credentials get 401 before the body is read; no refusal is a 202 |
| BridgeHttp.DecideAccept | scripts/codex_http_bridge.py:236-251 | a job is accepted exactly when the route and credentials are right, the body is an object, and the stripped prompt is non-empty and at most the maximum (a prompt of exactly the maximum is accepted) |
| BridgeHttp.PostSpec | scripts/codex_http_bridge.py:253-262 | the store changes exactly when the answer is 202, and that is exactly an accepted request; the answer carries the new id, "queued", `/jobs/<id>` and the creation time |
| BridgeHttp.PostPreservesValid | scripts/codex_http_bridge.py:226-262 | a POST keeps the store invariant |
| BridgeHttp.StatusUrlRoutes | scripts/codex_http_bridge.py:215-216 | the `status_url` handed out parses to a path that the GET handler resolves back to the same id |
| BridgeHttp.PostThenGet | scripts/codex_http_bridge.py:205-262 | after an accepted POST, an authorised GET of the returned `status_url` answers 200 with the new queued job's snapshot |
| BridgeHttp.HandlePost | scripts/codex_http_bridge.py:226-262 | the method's answer and the store it leaves are those of the POST specification |
| EnvConfig.ParseLine | scripts/github_task_worker.py:36-40 | a line defines nothing exactly when, stripped, it is empty, starts with `#` or has no `=` |
| EnvConfig.ParseEnvFile | scripts/github_task_worker.py:30-41 | the file's dictionary is the entries of its lines assigned in order |
| EnvConfig.AssignEntries | scripts/github_task_worker.py:35-40 | the loop builds exactly the dictionary of its entries |
| EnvConfig.AssignKeys | scripts/github_task_worker.py:35-41 | a key is in the parsed file exactly when some line defines it |
| EnvConfig.LastDefinitionWins | scripts/github_task_worker.py:40 | the last line that defines a key decides its value |
| EnvConfig.LoadConfig | scripts/github_task_worker.py:308-313 | the configuration has the keys of both; an environment value always wins, and file values only fill missing keys (the same code is in `discord_codex_bridge_bot.py`, `openclaw_http_bridge.py` and `openclaw_github_bridge.py`) |
| EnvConfig.LoadEnvFile | scripts/codex_http_bridge.py:121-129 | the environment after loading is the file's entries applied with `setdefault` |
| EnvConfig.SetDefaultEntries | scripts/codex_http_bridge.py:124-129 | the loop applies exactly `setdefault` for each entry |
| EnvConfig.SetDefaultsKeepsEnv | scripts/codex_http_bridge.py:129 | a variable already set is never overridden |
| EnvConfig.FirstDefinitionWins | scripts/codex_http_bridge.py:124-129 | for an unset variable, the first line that defines it decides |
| EnvConfig.NotYetDefined | scripts/codex_http_bridge.py:124-129 | a variable that is unset and that no line defines stays unset |
| EnvConfig.DuplicateKeyLoadersDiffer | scripts/codex_http_bridge.py:121-129 | an example of FirstDefinitionWins against LastDefinitionWins: on a file that repeats a key, the bridge keeps the first value and the other scripts keep the last |
| Text.StripByShape | scripts/github_task_worker.py:36 | `strip` removes only stripped characters, and only from the two ends |
| Text.StripEmptyIff | scripts/github_task_worker.py:37 | a string strips to nothing exactly when it is all white space, which is every character `str.isspace()` accepts |
| Text.StripIdempotent | scripts/github_task_worker.py:36-40 | stripping twice is stripping once |
| Text.StripPadded | scripts/github_task_worker.py:37 | white space around a word that neither starts nor ends with it is all removed, the Unicode space separators and the line and paragraph separators included |
| Text.PyPrefix | scripts/github_task_worker.py:117 | Python's `s[:n]` for non-negative and negative `n` |
| Text.Lower | scripts/github_task_worker.py:170 | `lower` keeps the length, turns each ASCII capital into a small letter and leaves every other character alone |
| Text.SortedDistinct | scripts/github_task_worker.py:217 | `sorted(set(xs))` is strictly ascending and has exactly the elements of `xs` |
| Text.StrictlySortedUnique | scripts/github_task_worker.py:217 | a set has exactly one strictly ascending listing |
| Text.PyIntOfDigits | scripts/codex_http_bridge.py:181 | `int` reads a string of ASCII digits as its decimal value |
| Text.PyIntPadded | scripts/codex_http_bridge.py:181 | `int` reads digits surrounded by any white space, such as U+3000, as their decimal value |
| Text.PyIntRoundTrip | scripts/codex_http_bridge.py:181 | `int(str(i)) == i` for every integer |
| Text.PyIntOfNegative | scripts/codex_http_bridge.py:181 | `int` reads a minus sign followed by ASCII digits as the negated decimal value |
| Text.PyIntRejects | scripts/codex_http_bridge.py:181 | in the model, `int` raises on a text holding any character that is not white space, a sign or an ASCII digit (Python's `int` also reads `_` between digits and non-ASCII decimal digits, see Left out), and its message is "invalid literal for int() with base 10: " followed by the text's `repr`, cut after 200 characters |
| Text.PyRepr | scripts/codex_http_bridge.py:181 | `repr` of a text is quoted at both ends, at least two characters longer than the text, and uses double quotes exactly when the text holds a single quote and no double quote |
| Text.PyReprPlain | scripts/codex_http_bridge.py:181 | text of printable characters without quotes or backslashes is shown as itself between single quotes |
| Text.NatToStringRoundTrip | scripts/codex_http_bridge.py:249 | the decimal text of a number reads back as that number |
| Text.Split | scripts/openclaw_github_bridge.py:112 | `split` gives one more part than there are separators, and no part contains one |
| Text.JoinSplit | scripts/openclaw_github_bridge.py:112 | joining the parts of a split gives back the string |
| Text.SplitJoin | scripts/openclaw_github_bridge.py:112 | splitting a join of separator-free parts gives back the parts |
| Text.FindRunSpec | scripts/openclaw_http_bridge.py:88 | the regex search finds nothing exactly when no long-enough run exists; otherwise it finds the leftmost one and takes it whole |
| Text.FirstRunSpec | scripts/openclaw_http_bridge.py:88-91 | the matched text is a maximal run of the wanted characters, long enough, with no long-enough run starting before it |
| Text.Truncate | scripts/discord_codex_bridge_bot.py:81-85 | the text is stripped; it is kept when it fits, otherwise cut to the limit with the marker; the result is empty exactly when the text is blank (the same code is at `openclaw_http_bridge.py:79-83`) |
| Json.TruncateValue | scripts/discord_codex_bridge_bot.py:194-196 | a missing or falsy field truncates to "", a string is truncated, and any other truthy value makes `truncate` raise |
| GithubWorker.SubRunsShape | scripts/github_task_worker.py:116 | replacing each run of non-alphanumerics by one dash leaves no two dashes together, keeps whether there is any letter or digit, and starts with a dash exactly when the text did not start alphanumeric |
| GithubWorker.SlugifySpec | scripts/github_task_worker.py:115-117 | a slug is non-empty, at most 40 characters of `a-z`, `0-9` and `-`, and never starts with a dash; text without letters or digits gives "task"; otherwise it is the lowered, dash-stripped substitution cut to 40 |
| GithubWorker.SlugOfSlug | scripts/github_task_worker.py:115-117 | a slug that does not end in a dash is its own slug |
| GithubWorker.OpenTaskIssues | scripts/github_task_worker.py:85-88 | an item is kept exactly when it is listed and is not a pull request |
| GithubWorker.OpenTaskIssuesKeepsOrder | scripts/github_task_worker.py:88 | the filter keeps the listing's order: filtering a concatenation concatenates the filtered parts |
| GithubWorker.PickNextIssue | scripts/github_task_worker.py:220-226 | there is no answer exactly when no issue is claimable; otherwise the answer is the first issue in list order that carries none of in-progress, done and canceled |
| GithubWorker.SetStateLabels | scripts/github_task_worker.py:211-217 | the labels sent are strictly sorted and are exactly `(current - remove) + add` |
| GithubWorker.LabelsAfterSpec | scripts/github_task_worker.py:211-217 | a name to add is always present, even when it is also to be removed; a name only to remove is absent; any other name is present exactly when it was |
| GithubWorker.PlanMatchesRunner | scripts/github_task_worker.py:168-197 | the worker reads the timeout first; after that it starts exactly the process the HTTP bridge's runner would start for the stripped command and normalised mode, or raises the same error plus a full stop |
| GithubWorker.DefaultTimeout | scripts/github_task_worker.py:171 | without `CODEX_TIMEOUT_SEC` the timeout is 1800 seconds |
| GithubWorker.DefaultCommand | scripts/github_task_worker.py:169 | without `CODEX_COMMAND` the command is the single word "codex" |
| GithubWorker.CodexPlanDefaults | scripts/github_task_worker.py:169-188 | with nothing configured, the worker runs `codex <prompt>` |
| GithubWorker.PlanFromCodex | scripts/github_task_worker.py:180-197 | for the command "codex", mode "arg" passes the prompt as the last argument and mode "stdin" passes it as input |
| GithubWorker.CodexPlanNormalisesMode | scripts/github_task_worker.py:170 | a padded, upper-case " STDIN " is accepted as "stdin" |
| GithubWorker.RunnerRefusesPaddedMode | scripts/codex_http_bridge.py:97-116 | the HTTP bridge's runner does not normalise: it refuses " STDIN " |
| GithubWorker.EndingOf | scripts/github_task_worker.py:242-262 | processing ends after the dry-run comment exactly in a dry run; with an exception exactly when a git command of the identity setup or checkout fails, Codex raises, or Codex exits 0 and a git command of `commit_and_push` fails; otherwise with the label change Codex's exit code and the changes decide |
| GithubWorker.ReturnedEnding | scripts/github_task_worker.py:250-287 | once Codex has returned, processing always ends with a final label change (failed, done or waiting-review), never with an exception or the dry-run comment |
| GithubWorker.IssueBody | scripts/github_task_worker.py:126 | `issue.get('body') or '(empty)'`: the body when present and non-empty, otherwise "(empty)", so never empty |
| GithubWorker.BuildPromptSpec | scripts/github_task_worker.py:120-132 | the prompt starts with the introduction and the `- Repo path:` line, and ends with the issue body (or "(empty)") followed by the four fixed instructions, so the body reads back from the end |
| GithubWorker.Conclude | scripts/github_task_worker.py:250-294 | after Codex returned the run has exactly two more actions, or three (push) or four (push, new pull request) for waiting-review, with nothing else in between; there is exactly one label change, replacing in-progress by the ending's final label on the freshly read labels, followed by the closing comment: the failure note with the exit code and log path, the no-changes note, or the PR note with the branch, the open or newly opened PR's URL and the log path; the branch is pushed exactly for waiting-review; a pull request from the branch into "main" is opened only for waiting-review when none is open, right before the label change |
| GithubWorker.ProcessIssue | scripts/github_task_worker.py:229-294 | the worker comments, moves the labels to in-progress (dropping failed) and writes `BuildPrompt(issue, repoPath)` to the prompt file; a dry run then posts the dry-run note naming the prompt file and stops; otherwise it checks out `task/<n>-<slug>`, runs Codex on that same prompt and, after an exit 0, commits and pushes; a failing git command or a raise from Codex ends the run at that step with in-progress left in place; every other run is these five actions followed by exactly the actions `Conclude` states, ending with the final label change and the closing comment, and no other label change follows the first |
| DiscordBot.AllowlistItemAsWrittenRaises | scripts/discord_codex_bridge_bot.py:93-95 | as written, the item "²" passes `isdigit` and then makes `int` raise |
| DiscordBot.AsWrittenRaisesOn | scripts/discord_codex_bridge_bot.py:93-95 | as written, every item whose stripped text passes `isdigit` without being ASCII digits makes `int` raise |
| DiscordBot.AllowlistItemSpec | scripts/discord_codex_bridge_bot.py:93-95 | an item is kept exactly when, stripped, it is ASCII digits, and then it is the non-negative number `int` reads without raising |
| DiscordBot.CollectSpec | scripts/discord_codex_bridge_bot.py:91-96 | an id is in the set exactly when some item yields it |
| DiscordBot.ParseChannelAllowlist | scripts/discord_codex_bridge_bot.py:88-96 | a blank setting gives the empty set; otherwise the loop collects exactly the numeric items |
| DiscordBot.AllowlistRoundTrip | scripts/discord_codex_bridge_bot.py:88-96 | a comma-separated list of channel ids parses back to exactly those ids |
| DiscordBot.GuardChannelSpec | scripts/discord_codex_bridge_bot.py:124-131 | with no allowlist every interaction passes; with one, exactly the listed channels pass, and an interaction without a channel passes only when channel 0 is listed |
| DiscordBot.FormatStatus | scripts/discord_codex_bridge_bot.py:184-204 | the method builds exactly the status message the specification function describes |
| DiscordBot.StatusMessageSpec | scripts/discord_codex_bridge_bot.py:184-204 | a bridge record always formats; a queued or running job shows the in-progress header and only the id/status/return-code lines; a finished job shows stdout exactly when it is non-blank, likewise stderr, and the error exactly when one was recorded, each truncated to 1400 |
| DiscordBot.DoneLinesSpec | scripts/discord_codex_bridge_bot.py:198-203 | the output lines come after the base lines in the order stdout, stderr, error, and each appears exactly when its text is non-empty |
| DiscordBot.SettingsSpec | scripts/discord_codex_bridge_bot.py:242-263 | the bot never starts without both tokens; its wait is at least 30 seconds and is otherwise the configured value; it uses a guild exactly when the guild setting is a number |
| OpenclawHttp.ExtractJobIdSpec | scripts/openclaw_http_bridge.py:86-91 | an error exactly when there is no run of 16 or more hex digits and dashes; otherwise the leftmost such run, taken whole |
| OpenclawHttp.FormatJobStatus | scripts/openclaw_http_bridge.py:107-128 | the method builds exactly the status text the specification function describes |
| OpenclawHttp.FinishedLines | scripts/openclaw_http_bridge.py:118-127 | the method's list appends are the finished job's lines |
| OpenclawHttp.JobStatusTextSpec | scripts/openclaw_http_bridge.py:107-128 | a bridge record always formats; a finished job adds its return code, then stdout, stderr and error, each exactly when non-blank, truncated to 1000 |
| OpenclawHttp.DoneText | scripts/openclaw_http_bridge.py:118-128 | the finished text is the header, the bulleted base lines and one bullet for each non-empty output, in order |
| OpenclawHttp.WaitUntilDone | scripts/openclaw_http_bridge.py:131-139 | the polling loop returns exactly what the specification function returns for the same polls |
| OpenclawHttp.WaitResultSpec | scripts/openclaw_http_bridge.py:131-139 | the first finished poll is returned; if none finished, the last poll is returned when it is non-empty, and otherwise the one extra poll |
| OpenclawHttp.WaitFromPolls | scripts/openclaw_http_bridge.py:131-139 | the answer is always one of the polls or the extra poll |
| OpenclawHttp.RouteSpec | scripts/openclaw_http_bridge.py:144-172 | on a stripped message, "/task " and "/taskwait " route to their prompt after the command word, which is never empty, so the usage errors cannot occur; "/status " routes to the leftmost job id `extract_job_id` finds, or fails with its error; without a command prefix, exactly "/health" is health and everything else is help |
| OpenclawHttp.TaskWaitPrefix | scripts/openclaw_http_bridge.py:144-149 | a "/taskwait " message never takes the "/task " or "/status " branch |
| OpenclawHttp.DispatchSpec | scripts/openclaw_http_bridge.py:142-172 | the routing above, including the "/status " branch, holds for the stripped raw message |
| OpenclawHttp.ReplySpec | scripts/openclaw_http_bridge.py:94-172 | a routing error is the reply's error; help gives the help text; task replies with the created job's id; health replies with the bridge's health fields; status replies with the formatted record; taskwait replies with the created id and the waited record's text; every routed command succeeds when the bridge answers well |
| OpenclawHttp.AnswerOk | scripts/openclaw_http_bridge.py:94-165 | every command succeeds when the bridge answers with records of the bridge's shape |
| OpenclawGithub.ParseIssueNumberSpec | scripts/openclaw_github_bridge.py:102-106 | an error exactly when the text has no digit; otherwise the value of the first whole run of digits |
| OpenclawGithub.ParseIssueNumberRoundTrip | scripts/openclaw_github_bridge.py:102-106 | a digit-free prefix followed by a number reads back as that number |
| OpenclawGithub.ParseTaskCmdSpec | scripts/openclaw_github_bridge.py:109-118 | the command fails exactly when the text after "/task" has no `\|` |
| OpenclawGithub.ParseTaskCmdRoundTrip | scripts/openclaw_github_bridge.py:109-118 | parts joined by `\|` parse back to title = first part, objective = second part, and priority = the third part when present and non-empty, otherwise "P1 - 높음"; further parts are ignored |
| OpenclawGithub.CancelLabels | scripts/openclaw_github_bridge.py:142 | the labels are strictly sorted and are the old ones plus "canceled" |
| OpenclawGithub.CancelLabelsSpec | scripts/openclaw_github_bridge.py:142 | they are the only sorted repeat-free listing of that set, and they hold "canceled" |
| OpenclawGithub.CancelRequests | scripts/openclaw_github_bridge.py:139-145 | "/cancel" reads the issue, closes it with the sorted labels plus "canceled", then comments |
| OpenclawGithub.RouteSpec | scripts/openclaw_github_bridge.py:121-152 | without "/task ", "/status " or "/cancel " (each with its blank) the answer is the help text and nothing is called; "/task " fails exactly without a `\|`; "/status " and "/cancel " fail exactly without a digit |
| OpenclawGithub.DispatchRoundTrip | scripts/openclaw_github_bridge.py:121-145 | "/status #n", "/cancel #n" and "/task a \| b …" are dispatched to that issue number and those task fields |
| OpenclawGithub.StatusRoundTrip | scripts/openclaw_github_bridge.py:128-129 | "/status #n" asks for issue n |
| OpenclawGithub.CancelRoundTrip | scripts/openclaw_github_bridge.py:139-140 | "/cancel #n" cancels issue n |
| OpenclawGithub.TaskRoundTrip | scripts/openclaw_github_bridge.py:123-124 | "/task " with trimmed parts creates a task with exactly those fields |
| OpenclawGithub.LifecycleWithWorker | scripts/openclaw_github_bridge.py:63-82 | an issue is created with title "[Task] " + title and labels exactly ["task"]; the issue worker lists it and may claim it; once "/cancel" has relabelled it, the worker never claims it |
| TokenWatchdog.WindowMembers | scripts/token-watchdog.js:105 | an entry is in the window exactly when it is in the history and newer than one minute |
| TokenWatchdog.WindowConcat | scripts/token-watchdog.js:157 | the window filter keeps the history's order |
| TokenWatchdog.WindowIdempotent | scripts/token-watchdog.js:157 | filtering an already filtered history changes nothing |
| TokenWatchdog.Charge | scripts/token-watchdog.js:108 | an entry without tokens, or with 0 tokens, counts 4000; any other entry counts its tokens |
| TokenWatchdog.TotalConcat | scripts/token-watchdog.js:108 | the total of a concatenation is the sum of the totals |
| TokenWatchdog.TotalPositive | scripts/token-watchdog.js:108 | with non-negative token counts, every entry adds at least one token |
| TokenWatchdog.Estimate | scripts/token-watchdog.js:100-114 | requests are allowed exactly when the estimate is below 900000 and the cooldown has passed strictly |
| TokenWatchdog.EstimateIgnoresStale | scripts/token-watchdog.js:100-114 | entries older than a minute do not affect the estimate |
| TokenWatchdog.CeilSeconds | scripts/token-watchdog.js:122 | `Math.ceil(ms / 1000)` is at least 1 for a positive remainder, and it is the smallest whole number of seconds that covers it |
| TokenWatchdog.CheckSpec | scripts/token-watchdog.js:117-152 | before the cooldown ends the check blocks with the remaining seconds and changes nothing; at or above 900000 it blocks, starts a 30-second cooldown and counts one more block; otherwise it allows with the current estimate and changes nothing; it allows exactly in that last case |
| TokenWatchdog.CheckCounts | scripts/token-watchdog.js:134-151 | the block count rises by exactly one on a threshold block and never otherwise; history and last check are untouched |
| TokenWatchdog.CooldownHolds | scripts/token-watchdog.js:121-149 | after a threshold block, every check within the next 30 seconds is a cooldown block that changes nothing and reports at most 30 seconds |
| TokenWatchdog.EstimateAgreesWithCheck | scripts/token-watchdog.js:112-134 | when the estimate allows, the check allows; the converse holds except at the very millisecond the cooldown ends, where the estimate refuses and the check allows |
| TokenWatchdog.DefaultAllows | scripts/token-watchdog.js:46-52 | the default state allows a request at any non-negative time, with estimate 0 and no state change |
| TokenWatchdog.StatusOf | scripts/token-watchdog.js:164-179 | the status is in cooldown exactly when now precedes the cooldown end; the remaining time is 0 outside a cooldown and at least 1 inside; it reports the history length, the block count, the constants and the estimate |
| TokenWatchdog.StatusMatchesCheck | scripts/token-watchdog.js:164-179 | the status is in cooldown exactly when a check would give a cooldown block, and both report the same remaining seconds |
| TokenWatchdog.RecordSpec | scripts/token-watchdog.js:155-161 | after recording, the history is the old entries newer than a minute, in order, followed by the new entry; every entry is inside the window; the last check is now; cooldown and block count are unchanged |
| TokenWatchdog.RecordRaisesEstimate | scripts/token-watchdog.js:155-161 | recording raises the estimate at that moment by exactly the new entry's charge |
| TokenWatchdog.Watchdog.constructor | scripts/token-watchdog.js:26-29 | a new watchdog starts in the default state: all counters 0 and an empty history |
| TokenWatchdog.Watchdog.CheckBeforeRequest | scripts/token-watchdog.js:117-152 | the method's decision and new state are those of the check function |
| TokenWatchdog.Watchdog.RecordRequest | scripts/token-watchdog.js:155-161 | the method leaves the state the recording function gives |
| BandPosts.InPeriod | band-dashboard/band_dashboard_pro.py:21 | every post kept is dated at or after the cutoff |
| BandPosts.InPeriodSpec | band-dashboard/band_dashboard_pro.py:21 | the filter keeps a post exactly when it is in the list and dated at or after the cutoff; a single post is kept exactly when it is in the window, and filtering a concatenation concatenates the filtered parts, so the kept posts stay in their order |
| BandPosts.Authors | band-dashboard/band_dashboard_pro.py:24-30 | the member keys are listed once each, and are exactly the authors of the posts |
| BandPosts.SortDesc | band-dashboard/band_dashboard.py:50-54 | the sort returns a permutation of its input |
| BandPosts.SortDescSpec | band-dashboard/band_dashboard.py:50-54 | `sorted(..., reverse=True)` is a permutation, in non-increasing key order, and stable: the entries of each key keep their input order |
| BandPosts.Top | band-dashboard/band_dashboard.py:55 | `[:n]` never yields more than `n` entries or more than there are |
| BandPosts.TopSpec | band-dashboard/band_dashboard.py:50-55 | `[:n]` of the sort keeps `min(n, len)` entries in non-increasing order, and every entry left out scores no more than any entry kept |
| BandDashboard.StepSpec | band-dashboard/band_dashboard.py:36-42 | one post inside the window adds one post, its likes and its comments to its author (missing author "Unknown", missing counts 0); a post outside adds nothing; the score is untouched |
| BandDashboard.AccumulateSpec | band-dashboard/band_dashboard.py:36-42 | after the first loop each member's counts are the old ones plus their in-window posts, likes and comments; new members are exactly the in-window authors, appended after the old ones |
| BandDashboard.ScoredSpec | band-dashboard/band_dashboard.py:45-47 | scoring keeps every count and key and sets every score to 10·posts + 3·comments + likes |
| BandPosts.Items | band-dashboard/band_dashboard.py:51 | `self.members.items()` (and `member_stats.items()` at band-dashboard/band_dashboard_pro.py:57) lists the keys in insertion order, each with its tally, a zero tally for a listed name the map lacks |
| BandDashboard.RankingSpec | band-dashboard/band_dashboard.py:50-55 | the ranking holds at most ten members, best first; equal scores keep insertion order; every member left out scores no more than any member listed |
| BandDashboard.RankingMembers | band-dashboard/band_dashboard.py:50-55 | every ranking entry is a member with its own tally |
| BandDashboard.RankingTwice | band-dashboard/band_dashboard.py:19-42 | the totals outlive a call: ranking twice over the same posts counts every in-window post twice |
| BandDashboard.Dashboard.constructor | band-dashboard/band_dashboard.py:17-24 | a new dashboard has no posts and no members |
| BandDashboard.Dashboard.CalculateRanking | band-dashboard/band_dashboard.py:32-55 | the members after the call are the old ones plus the window's posts, rescored; the posts are unchanged; the answer is the top ten of the new members |
| BandDashboard.Dashboard.AddWindowPosts | band-dashboard/band_dashboard.py:36-42 | the members afterwards are the old ones with every in-window post added to its author's totals, which AccumulateSpec spells out; the table stays well formed and the posts are untouched |
| BandDashboard.Dashboard.RescoreAll | band-dashboard/band_dashboard.py:45-47 | every member's score is rewritten from their own totals and nothing else changes, as ScoredSpec spells out |
| BandDashboardPro.DatesSpec | band-dashboard/band_dashboard_pro.py:35-38 | the earliest and latest dates bound every post and are each some post's date |
| BandDashboardPro.AggregateSpec | band-dashboard/band_dashboard_pro.py:24-38 | the members are exactly the period's authors in first-appearance order; each has their post count and their like and comment sums, score 0, and first/last post equal to their earliest/latest date |
| BandDashboardPro.FirstBeforeLast | band-dashboard/band_dashboard_pro.py:35-38 | every member's first post is no later than their last |
| BandDashboardPro.ScoredSpec | band-dashboard/band_dashboard_pro.py:41-43 | scoring changes only the score, to 10·posts + 3·comments + likes |
| BandDashboardPro.TotalsSpec | band-dashboard/band_dashboard_pro.py:46-50 | the total posts are the in-window posts, which is also the sum of the members' posts; likes and comments are the sums; active members are the distinct authors |
| BandDashboardPro.PostsAddUp | band-dashboard/band_dashboard_pro.py:46-50 | the members' post counts add up to the number of in-window posts, before and after scoring |
| BandDashboardPro.RankingSpec | band-dashboard/band_dashboard_pro.py:57 | the ranking holds at most twenty members, best first, equal scores in first-appearance order |
| BandDashboardPro.MonthPosts | band-dashboard/band_dashboard_pro.py:70-73 | every post kept lies within the month, both bounds included |
| BandDashboardPro.MonthPostsSpec | band-dashboard/band_dashboard_pro.py:70-73 | the filter keeps a post exactly when it is in the list and inside the month; a single post is kept exactly when it is inside, and filtering a concatenation concatenates the filtered parts, so the kept posts stay in their order |
| BandDashboardPro.AuthorSet | band-dashboard/band_dashboard_pro.py:75 | the set is exactly the authors of the posts, a missing author counted as `None`, and it has no more elements than there are posts |
| BandDashboardPro.MonthEntryOf | band-dashboard/band_dashboard_pro.py:70-82 | the entry carries the month's name, the number of posts inside the month, their likes, and the number of distinct authors among the posts inside the month; it never has more active members than posts |
| BandDashboardPro.Reversed | band-dashboard/band_dashboard_pro.py:84 | `reversed` keeps the length and mirrors the positions |
| BandDashboardPro.DashboardPro.constructor | band-dashboard/band_dashboard_pro.py:14-16 | a new dashboard has no posts |
| BandDashboardPro.CountPost | band-dashboard/band_dashboard_pro.py:26-38 | one turn of the loop over the period's posts: the table afterwards is one more step of the aggregation whose totals, key order and dates AggregateSpec characterises (a first post adds a zeroed entry for its author at the end of the key order) |
| BandDashboardPro.DashboardPro.CalculateStats | band-dashboard/band_dashboard_pro.py:18-58 | the answer depends only on the posts and the cutoff, so a repeated call gives identical counts; it is the totals and top twenty of a fresh aggregation |
| BandDashboardPro.DashboardPro.GetMonthlyTrend | band-dashboard/band_dashboard_pro.py:60-84 | exactly `months` entries (none for a negative count), oldest month first; each entry is that month's counts and has no more active members than posts |

## Left out

- Threads, the lock, `queue.Queue` blocking, `task_done` and the threaded HTTP server are left out. The store and the worker are modelled one step at a time. A running job is therefore never visible to a concurrent `/health` between the worker's two updates.
- A race in the HTTP bridge is not modelled: the worker could dequeue a job before `do_POST` sends its 202.
- Subprocesses and their timeouts are abstract outcomes: an exit code with outputs, or an error. Each git command of the issue worker is modelled only by whether it fails: one failure flag for the identity setup and checkout, and one for `commit_and_push`. Their outputs are not modelled.
- GithubWorker.ProcessIssue: the GitHub calls of `process_issue` always answer. They post comments, set labels, re-read the issue and find or open a pull request. A GitHub error that raises part-way through a run is not modelled.
- Text.PyRepr: characters above U+00FF are shown as themselves. Python escapes the non-printable ones among them, such as U+2028. A `Content-Length` header, decoded as ISO-8859-1, never holds such a character.
- The GitHub, Discord and bridge HTTP clients are inputs, and so are their error texts. This includes the `create_issue` call itself; only its payload is modelled.
- JSON encoding and decoding are left out. A request body arrives as what decoding produced, and JSON values are scalars only.
- `uuid4`, `now_iso`, `Date.now` and `datetime.now` are parameters.
- Dates in the dashboards are whole seconds rather than float timestamps.
- File I/O is left out. A `.env` file is its lines; logs, the prompt file and the watchdog's state and log files are not written.
- The watchdog's `loadState` from a saved file is not modelled; only the default state is.
- The HTML and CSS report templates of both dashboards are left out.
- Floats are left out: `utilization`, `avg_posts_per_member`, the Discord poll interval and the OpenClaw poll interval.
- Calendar arithmetic in `get_monthly_trend` is left out. Each month's name and bounds come from the `bounds` parameter.
- The reply and message texts of the chat clients are left out where they only format GitHub's or the bridge's answer. This covers the OpenClaw GitHub `/task`, `/status` and `/cancel` replies and the watchdog's messages with `toLocaleString`.
- These entry points are not modelled: the Discord command registration, `_watch_job_and_report` and `setup_hook`; `main`, `process_once` and argument parsing in every script; the watchdog's CLI switch and `checkTokenUsage`.
- `erp-sync/erp_scraper.py` is not part of this model.
- `BandDashboard.fetch_posts` is an empty stub and is not modelled.
- Band posts whose keys are present with the value null are not modelled. The model reads every key with its `.get` default. A null author would be counted under `None`. A null `like_count` or `comment_count` reaches `+=` or `sum` as `None` and raises `TypeError` in both dashboards. A null `created_at` makes `datetime.fromtimestamp` raise `TypeError`. The ranking models a missing author as "Unknown", while the monthly trend counts it as `None`.
- BandDashboardPro.DashboardPro.CalculateStats: the result has no `'period'` label (`f'{days}일'`). The cutoff is the parameter `since`, not a number of days, so the model has no day count to print.
- OpenclawHttp.WaitResultSpec: every poll is an answer; a poll that raises inside the loop is not modelled. Only the extra poll after the deadline may fail.
- CodexRunner.PlanSpec: `shlex.split` is modelled as a split on blanks. Quotes and escapes are not interpreted.
- BridgeHttp.UrlPath: `urlparse` is modelled for request targets without a scheme or network location, which is what an HTTP server receives.
- Text.PyIntOfDigits: `int` is modelled on optional white space, an optional sign and ASCII digits. Underscores and non-ASCII digits are not accepted.
- Text.PyIntRejects: the rejection is the model's reading of `int`, not Python's. Python also reads `int("1_0") == 10` and Unicode decimal digits such as `int("٣") == 3`, which the model rejects. So a `Content-Length`, `CODEX_TIMEOUT_SEC` or Discord timeout written that way is an error in the model, while the source accepts it.
- DiscordBot.SettingsSpec: the guild id test reads `isdigit` as ASCII digits, the same correction as in the allowlist finding. The float poll interval, which is parsed before the wait, is not modelled.
- Text.Lower: `lower` is modelled for ASCII letters only.
- OpenclawGithub.ParseIssueNumberSpec: the regex `\d` is modelled as the ASCII digits.

## Findings

| source | as written | input that shows it | evidently intended | confidence | as-written member | corrected member |
|---|---|---|---|---|---|---|
| scripts/discord_codex_bridge_bot.py:93-95 | an allowlist item is kept when `str.isdigit()` holds and is then read by `int()` | `DISCORD_ALLOWED_CHANNELS=²`: `"²".isdigit()` is true and `int("²")` raises `ValueError`, so the bot does not start | keep only items that `int` can read; in the model these are the ASCII decimal digits (see the Text.PyIntOfDigits line under Left out) | high (Python documents `isdigit` as accepting superscripts); not executed | DiscordBot.AllowlistItemAsWrittenRaises | DiscordBot.AllowlistItemSpec |
