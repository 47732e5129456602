/**
 * The decisions of scripts/github_task_worker.py: branch slugs, which issue
 * to take, label arithmetic, the configuration checks before Codex runs, and
 * the sequence of GitHub and git actions one issue goes through. GitHub,
 * git and Codex are outside the model; their answers are inputs.
 */
module GithubWorker {
  import opened Wrappers
  import opened Text
  import CodexRunner

  // ---------------------------------------------------------------------------
  // slugify

  /** Drops the leading characters that are not ASCII letters or digits. */
  function SkipRun(s: string): (r: string)
    ensures |r| <= |s| && r == s[|s| - |r|..]
    ensures r == [] || IsAsciiAlnum(r[0])
  {
    if s != [] && !IsAsciiAlnum(s[0]) then SkipRun(s[1..]) else s
  }

  /** `re.sub(r"[^a-zA-Z0-9]+", "-", s)`: every maximal run of other
      characters becomes one `-`. */
  function SubRuns(s: string): (r: string)
    decreases |s|
  {
    if s == [] then []
    else if IsAsciiAlnum(s[0]) then [s[0]] + SubRuns(s[1..])
    else "-" + SubRuns(SkipRun(s[1..]))
  }

  predicate IsSlugChar(c: char) {
    IsDigit(c) || ('a' <= c <= 'z') || c == '-'
  }

  predicate HasAlnum(s: string) {
    exists i :: 0 <= i < |s| && IsAsciiAlnum(s[i])
  }

  /** Letters, digits and dashes, never two dashes in a row. */
  predicate DashSeparated(r: string) {
    && (forall i :: 0 <= i < |r| ==> IsAsciiAlnum(r[i]) || r[i] == '-')
    && (forall i :: 0 <= i < |r| - 1 ==> !(r[i] == '-' && r[i + 1] == '-'))
  }

  lemma HasAlnumHead(s: string)
    requires s != []
    ensures HasAlnum(s) <==> IsAsciiAlnum(s[0]) || HasAlnum(s[1..])
  {
    if HasAlnum(s) && !IsAsciiAlnum(s[0]) {
      var i :| 0 <= i < |s| && IsAsciiAlnum(s[i]);
      assert s[1..][i - 1] == s[i];
    }
    if HasAlnum(s[1..]) {
      var i :| 0 <= i < |s[1..]| && IsAsciiAlnum(s[1..][i]);
      assert s[i + 1] == s[1..][i];
    }
  }

  /** Skipping a run of other characters loses no letter or digit. */
  lemma {:induction false} SkipRunKeepsAlnum(s: string)
    ensures HasAlnum(SkipRun(s)) <==> HasAlnum(s)
  {
    if s != [] && !IsAsciiAlnum(s[0]) {
      HasAlnumHead(s);
      SkipRunKeepsAlnum(s[1..]);
    }
  }

  /** `SubRuns` leaves letters, digits and single dashes; it keeps a letter
      or digit exactly when the input has one, and it starts with a dash
      exactly when the input starts with anything else. */
  lemma {:induction false} SubRunsShape(s: string)
    ensures var r := SubRuns(s);
      && DashSeparated(r)
      && (HasAlnum(r) <==> HasAlnum(s))
      && (r == [] <==> s == [])
      && (r != [] ==> (r[0] == '-' <==> !IsAsciiAlnum(s[0])))
    decreases |s|
  {
    if s != [] {
      var r := SubRuns(s);
      HasAlnumHead(s);
      if IsAsciiAlnum(s[0]) {
        SubRunsShape(s[1..]);
        assert r == [s[0]] + SubRuns(s[1..]);
        assert r[1..] == SubRuns(s[1..]);
        assert HasAlnum(r) by { assert IsAsciiAlnum(r[0]); }
        forall i | 0 <= i < |r| - 1 ensures !(r[i] == '-' && r[i + 1] == '-') {
          if i > 0 {
            assert r[i] == SubRuns(s[1..])[i - 1] && r[i + 1] == SubRuns(s[1..])[i];
          }
        }
      } else {
        var t := SkipRun(s[1..]);
        SkipRunKeepsAlnum(s[1..]);
        SubRunsShape(t);
        assert r == "-" + SubRuns(t);
        assert r[1..] == SubRuns(t);
        HasAlnumHead(r);
        forall i | 0 <= i < |r| - 1 ensures !(r[i] == '-' && r[i + 1] == '-') {
          if i > 0 {
            assert r[i] == SubRuns(t)[i - 1] && r[i + 1] == SubRuns(t)[i];
          }
        }
      }
    }
  }

  lemma DashSeparatedSlice(r: string, i: int, j: int)
    requires DashSeparated(r) && 0 <= i <= j <= |r|
    ensures DashSeparated(r[i..j])
  {
    var t := r[i..j];
    assert forall k :: 0 <= k < |t| ==> t[k] == r[i + k];
  }

  /** `strip("-")` of a dash-separated string is dash-separated. */
  lemma StripDashesSeparated(r: string)
    requires DashSeparated(r)
    ensures DashSeparated(StripChar(r, '-'))
  {
    var t := StripChar(r, '-');
    StripByShape(r, {'-'});
    var i := |r| - |TrimLeft(r, {'-'})|;
    DashSeparatedSlice(r, i, i + |t|);
  }

  /** `strip("-")` of a dash-separated string starts and ends with a letter
      or digit, and is empty exactly when no letter or digit was there. */
  lemma StripDashes(r: string)
    requires DashSeparated(r)
    ensures var t := StripChar(r, '-');
      && (t == [] <==> !HasAlnum(r))
      && (t != [] ==> IsAsciiAlnum(t[0]) && IsAsciiAlnum(t[|t| - 1]))
  {
    var t := StripChar(r, '-');
    StripByShape(r, {'-'});
    var i := |r| - |TrimLeft(r, {'-'})|;
    assert t == r[i..i + |t|];
    if t == [] {
      assert forall k :: 0 <= k < |r| ==> r[k] == '-';
    } else {
      assert t[0] == r[i] && t[|t| - 1] == r[i + |t| - 1];
    }
  }

  /** Lower-casing maps a letter or digit to a lower-case letter or digit and
      keeps dashes. */
  lemma LowerSlugChar(c: char)
    requires IsAsciiAlnum(c) || c == '-'
    ensures IsSlugChar(LowerChar(c)) && (LowerChar(c) == '-' <==> c == '-')
  {
  }

  const SlugLimit := 40
  const DefaultSlug: string := "task"

  /** `slugify` */
  function Slugify(text: string): string {
    SlugOf(StripChar(SubRuns(text), '-'))
  }

  /** The last two steps of `slugify`: lower-case, then cut to 40
      characters, or "task" when nothing is left. */
  function SlugOf(core: string): string {
    var slug := Lower(core);
    if slug != [] then PyPrefix(slug, SlugLimit) else DefaultSlug
  }

  /** The properties every slug has. */
  predicate IsSlug(slug: string) {
    && slug != [] && |slug| <= SlugLimit
    && (forall i :: 0 <= i < |slug| ==> IsSlugChar(slug[i]))
    && slug[0] != '-'
    && (forall i :: 0 <= i < |slug| - 1 ==> !(slug[i] == '-' && slug[i + 1] == '-'))
  }

  lemma SlugOfSpec(core: string)
    requires DashSeparated(core) && (core == [] || IsAsciiAlnum(core[0]))
    ensures IsSlug(SlugOf(core))
    ensures core == [] ==> SlugOf(core) == DefaultSlug
  {
    if core != [] {
      var slug := PyPrefix(Lower(core), SlugLimit);
      forall i | 0 <= i < |slug| ensures IsSlugChar(slug[i]) && (slug[i] == '-' <==> core[i] == '-') {
        LowerSlugChar(core[i]);
      }
      LowerSlugChar(core[0]);
    }
  }

  /** A slug is non-empty, at most 40 characters of `[a-z0-9-]`, never starts
      with a dash and never holds two dashes in a row; a title without an
      ASCII letter or digit gets the fallback "task", any other title the
      lower-cased, dash-separated form of its text. */
  lemma SlugifySpec(text: string)
    ensures IsSlug(Slugify(text))
    ensures !HasAlnum(text) ==> Slugify(text) == DefaultSlug
    ensures HasAlnum(text) ==> Slugify(text) == PyPrefix(Lower(StripChar(SubRuns(text), '-')), SlugLimit)
  {
    var r := SubRuns(text);
    SubRunsShape(text);
    StripDashes(r);
    StripDashesSeparated(r);
    SlugOfSpec(StripChar(r, '-'));
  }

  /** A title that is already a slug, and does not end in a dash, is its own
      slug. */
  lemma SlugOfSlug(text: string)
    requires IsSlug(text) && text[|text| - 1] != '-'
    ensures Slugify(text) == text
  {
    SubRunsOfSlug(text);
    StripByFramedless(text, {'-'});
    LowerOfSlug(text);
  }

  lemma LowerOfSlug(text: string)
    requires forall i :: 0 <= i < |text| ==> IsSlugChar(text[i])
    ensures Lower(text) == text
  {
    assert forall i :: 0 <= i < |text| ==> Lower(text)[i] == text[i];
  }

  lemma {:induction false} SubRunsOfSlug(s: string)
    requires forall i :: 0 <= i < |s| ==> IsSlugChar(s[i])
    requires forall i :: 0 <= i < |s| - 1 ==> !(s[i] == '-' && s[i + 1] == '-')
    ensures SubRuns(s) == s
    decreases |s|
  {
    if s != [] {
      var t := s[1..];
      assert forall i :: 0 <= i < |t| ==> t[i] == s[i + 1];
      SubRunsOfSlug(t);
      if !IsAsciiAlnum(s[0]) {
        assert t != [] ==> IsAsciiAlnum(t[0]);
        assert SkipRun(t) == t;
      }
    }
  }

  /** `f"task/{issue_number}-{slugify(issue['title'])}"` */
  function BranchName(number: int, title: string): string {
    "task/" + IntToString(number) + "-" + Slugify(title)
  }

  // ---------------------------------------------------------------------------
  // issues and labels

  /** The fields of an issue the worker reads; `labels` are the label names
      (`issue_labels`), `isPullRequest` whether the item has a
      `pull_request` key. */
  datatype Issue = Issue(number: int, title: string, body: Option<string>,
                         labels: seq<string>, isPullRequest: bool)

  /** `list_open_task_issues` after the API call: the items that are not pull
      requests. */
  function OpenTaskIssues(items: seq<Issue>): (r: seq<Issue>)
    ensures |r| <= |items|
    ensures forall x :: x in r <==> x in items && !x.isPullRequest
  {
    if items == [] then []
    else if items[0].isPullRequest then OpenTaskIssues(items[1..])
    else [items[0]] + OpenTaskIssues(items[1..])
  }

  /** The filter keeps the API's order: filtering a concatenation is
      concatenating the filtered parts. */
  lemma {:induction false} OpenTaskIssuesKeepsOrder(a: seq<Issue>, b: seq<Issue>)
    ensures OpenTaskIssues(a + b) == OpenTaskIssues(a) + OpenTaskIssues(b)
  {
    if a == [] {
      assert a + b == b;
    } else {
      assert (a + b)[1..] == a[1..] + b;
      OpenTaskIssuesKeepsOrder(a[1..], b);
    }
  }

  const InProgress: string := "in-progress"
  const Done: string := "done"
  const Canceled: string := "canceled"
  const FailedLabel: string := "failed"
  const WaitingReview: string := "waiting-review"

  /** An issue the worker may take: none of in-progress, done, canceled. */
  predicate Claimable(issue: Issue) {
    InProgress !in issue.labels && Done !in issue.labels && Canceled !in issue.labels
  }

  /** `pick_next_issue`: the first claimable issue in list order. */
  function PickNextIssue(issues: seq<Issue>): (r: Option<Issue>)
    ensures r.None? <==> forall i :: 0 <= i < |issues| ==> !Claimable(issues[i])
    ensures r.Some? ==> exists i :: 0 <= i < |issues| && issues[i] == r.value && Claimable(issues[i])
                                    && forall j :: 0 <= j < i ==> !Claimable(issues[j])
  {
    if issues == [] then None
    else if Claimable(issues[0]) then Some(issues[0])
    else
      var r := PickNextIssue(issues[1..]);
      assert forall i :: 1 <= i < |issues| ==> issues[i] == issues[1..][i - 1];
      if r.Some? then
        var i :| 0 <= i < |issues[1..]| && issues[1..][i] == r.value && Claimable(issues[1..][i])
                 && forall j :: 0 <= j < i ==> !Claimable(issues[1..][j]);
        assert issues[i + 1] == r.value;
        r
      else r
  }

  /** The label set `set_state_labels` sends: `(current - remove) + add`. */
  function LabelsAfter(current: seq<string>, add: seq<string>, remove: seq<string>): set<string> {
    (Elems(current) - Elems(remove)) + Elems(add)
  }

  /** `set_state_labels`: discard each name of `remove`, add each name of
      `add`, and send the result sorted. */
  method SetStateLabels(current: seq<string>, add: seq<string>, remove: seq<string>) returns (sent: seq<string>)
    ensures StrictlySorted(sent) && Elems(sent) == LabelsAfter(current, add, remove)
  {
    var labels := Elems(current);
    for i := 0 to |remove|
      invariant labels == Elems(current) - Elems(remove[..i])
    {
      assert Elems(remove[..i + 1]) == Elems(remove[..i]) + {remove[i]};
      labels := labels - {remove[i]};
    }
    assert remove[..|remove|] == remove;
    for i := 0 to |add|
      invariant labels == (Elems(current) - Elems(remove)) + Elems(add[..i])
    {
      assert Elems(add[..i + 1]) == Elems(add[..i]) + {add[i]};
      labels := labels + {add[i]};
    }
    assert add[..|add|] == add;
    sent := [];
    var pending := labels;
    while pending != {}
      invariant StrictlySorted(sent)
      invariant Elems(sent) + pending == labels
      decreases pending
    {
      var x :| x in pending;
      InsertSpec(x, sent);
      sent := Insert(x, sent);
      pending := pending - {x};
    }
  }

  /** A name both added and removed ends up present; a name only removed is
      absent; the labels sent are determined by the set alone. */
  lemma LabelsAfterSpec(current: seq<string>, add: seq<string>, remove: seq<string>, name: string)
    ensures name in add ==> name in LabelsAfter(current, add, remove)
    ensures name in remove && name !in add ==> name !in LabelsAfter(current, add, remove)
    ensures name !in remove && name !in add ==> (name in LabelsAfter(current, add, remove) <==> name in current)
  {
  }

  // ---------------------------------------------------------------------------
  // execute_codex: the configuration checks

  const EmptyCommand: string := "CODEX_COMMAND is empty."
  const BadPromptMode: string := "CODEX_PROMPT_MODE must be 'arg' or 'stdin'."

  /** `os.environ.get(key, default)` */
  function Setting(config: map<string, string>, key: string, default: string): string {
    if key in config then config[key] else default
  }

  /** The command line, stripped. */
  function CommandOf(config: map<string, string>): string {
    Strip(Setting(config, "CODEX_COMMAND", "codex"))
  }

  /** The prompt mode, stripped and lower-cased. */
  function ModeOf(config: map<string, string>): string {
    Lower(Strip(Setting(config, "CODEX_PROMPT_MODE", "arg")))
  }

  /** The timeout in seconds, or the error `int` raises. */
  function TimeoutOf(config: map<string, string>): Result<int> {
    PyInt(Setting(config, "CODEX_TIMEOUT_SEC", "1800"))
  }

  /** What `execute_codex` would start for `prompt`, or the error it raises
      before starting anything. */
  function CodexPlan(config: map<string, string>, prompt: string): Result<CodexRunner.Invocation> {
    PlanFrom(TimeoutOf(config), CommandOf(config), ModeOf(config), prompt)
  }

  /** The checks on the values read: the timeout is read first, then the
      command must have a word, then the mode must be "arg" or "stdin". */
  function PlanFrom(timeout: Result<int>, command: string, mode: string, prompt: string): Result<CodexRunner.Invocation> {
    if timeout.Err? then Err(timeout.error)
    else
      var cmd := CodexRunner.Words(command);
      if cmd == [] then Err(EmptyCommand)
      else if mode != "arg" && mode != "stdin" then Err(BadPromptMode)
      else if mode == "arg" then Ok(CodexRunner.Invocation(cmd + [prompt], None))
      else Ok(CodexRunner.Invocation(cmd, Some(prompt)))
  }

  /** The worker's checks are the HTTP bridge runner's checks applied to the
      stripped command and the normalised mode, after a timeout that must
      parse: it starts exactly the same process when both accept, and
      otherwise raises the same error up to the closing full stop. */
  lemma PlanMatchesRunner(timeout: Result<int>, command: string, mode: string, prompt: string)
    ensures var r := PlanFrom(timeout, command, mode, prompt);
      var p := CodexRunner.Plan(command, mode, prompt);
      && (timeout.Err? ==> r == Err(timeout.error))
      && (timeout.Ok? ==> && (r.Ok? <==> p.Ok?)
                          && (r.Ok? ==> r.value == p.value)
                          && (p.Err? ==> r.Err? && r.error == p.error + "."))
  {
  }

  lemma WordsOfCodex()
    ensures CodexRunner.Words("codex") == ["codex"]
  {
    CodexRunner.WordsOfOneWord("codex");
  }

  lemma DefaultTimeout(config: map<string, string>)
    requires "CODEX_TIMEOUT_SEC" !in config
    ensures TimeoutOf(config) == Ok(1800)
  {
    var t := "1800";
    assert IsDigits(t);
    StripDigits(t);
    assert t[..3] == "180" && "180"[..2] == "18" && "18"[..1] == "1" && "1"[..0] == "";
    assert DigitsValue(t) == 1800;
  }

  lemma DefaultCommand(config: map<string, string>)
    requires "CODEX_COMMAND" !in config
    ensures CodexRunner.Words(CommandOf(config)) == ["codex"]
  {
    StripByFramedless("codex", Whitespace);
    WordsOfCodex();
  }

  lemma StripArg()
    ensures Strip("arg") == "arg"
  {
    StripByFramedless("arg", Whitespace);
  }

  lemma LowerArg()
    ensures Lower("arg") == "arg"
  {
    var l := Lower("arg");
    assert l[0] == 'a' && l[1] == 'r' && l[2] == 'g';
  }

  /** With nothing configured the worker runs `codex` with the prompt as its
      last argument. */
  lemma CodexPlanDefaults(config: map<string, string>, prompt: string)
    requires "CODEX_COMMAND" !in config && "CODEX_PROMPT_MODE" !in config && "CODEX_TIMEOUT_SEC" !in config
    ensures CodexPlan(config, prompt) == Ok(CodexRunner.Invocation(["codex", prompt], None))
  {
    var timeout, command, mode := TimeoutOf(config), CommandOf(config), ModeOf(config);
    DefaultTimeout(config);
    DefaultCommand(config);
    StripArg();
    LowerArg();
    PlanFromCodex(timeout, command, mode, prompt);
  }

  lemma PlanFromCodex(timeout: Result<int>, command: string, mode: string, prompt: string)
    requires timeout.Ok? && CodexRunner.Words(command) == ["codex"]
    ensures mode == "arg" ==> PlanFrom(timeout, command, mode, prompt) == Ok(CodexRunner.Invocation(["codex", prompt], None))
    ensures mode == "stdin" ==> PlanFrom(timeout, command, mode, prompt) == Ok(CodexRunner.Invocation(["codex"], Some(prompt)))
  {
    assert ["codex"] + [prompt] == ["codex", prompt];
  }

  lemma StripStdin()
    ensures Strip(" STDIN ") == "STDIN"
  {
    assert " STDIN " == [' '] + "STDIN" + [' '];
    StripByFramed("STDIN", Whitespace, ' ');
  }

  lemma LowerStdin()
    ensures Lower("STDIN") == "stdin"
  {
    var l := Lower("STDIN");
    assert l[0] == 's' && l[1] == 't' && l[2] == 'd' && l[3] == 'i' && l[4] == 'n';
  }

  /** The worker accepts a mode in any case and with surrounding blanks. */
  lemma CodexPlanNormalisesMode(config: map<string, string>, prompt: string)
    requires "CODEX_COMMAND" !in config && "CODEX_TIMEOUT_SEC" !in config
    requires "CODEX_PROMPT_MODE" in config && config["CODEX_PROMPT_MODE"] == " STDIN "
    ensures CodexPlan(config, prompt) == Ok(CodexRunner.Invocation(["codex"], Some(prompt)))
  {
    var timeout, command, mode := TimeoutOf(config), CommandOf(config), ModeOf(config);
    DefaultTimeout(config);
    DefaultCommand(config);
    StripStdin();
    LowerStdin();
    PlanFromCodex(timeout, command, mode, prompt);
  }

  /** The HTTP bridge's runner refuses the mode the worker accepts above. */
  lemma RunnerRefusesPaddedMode(prompt: string)
    ensures CodexRunner.Plan("codex", " STDIN ", prompt) == Err(CodexRunner.BadPromptMode)
  {
    WordsOfCodex();
  }

  // ---------------------------------------------------------------------------
  // process_issue

  const PromptIntro: string := "You are working in this local repository.\n"

  /** The instructions after the issue body, with the blank line before them. */
  const PromptSteps: string :=
    "\n\nTask:\n"
    + "1) Implement the requested change in code.\n"
    + "2) Run relevant validation/tests.\n"
    + "3) Keep changes scoped to this issue.\n"
    + "4) Summarize what changed and any risks.\n"

  /** `issue.get('body') or '(empty)'`: a missing or empty body reads as
      "(empty)", so the prompt never has an empty body. */
  function IssueBody(issue: Issue): (r: string)
    ensures r != []
    ensures issue.body.Some? && issue.body.value != [] ==> r == issue.body.value
    ensures issue.body.None? || issue.body.value == [] ==> r == "(empty)"
  {
    if issue.body.Some? && issue.body.value != [] then issue.body.value else "(empty)"
  }

  function RepoLine(repoPath: string): string {
    "- Repo path: " + repoPath + "\n"
  }

  function IssueLine(issue: Issue): string {
    "- GitHub issue: #" + IntToString(issue.number) + " " + issue.title + "\n\n"
  }

  /** `build_prompt` */
  function BuildPrompt(issue: Issue, repoPath: string): string {
    PromptIntro + RepoLine(repoPath) + IssueLine(issue) + "Issue body:\n" + IssueBody(issue) + PromptSteps
  }

  /** What Codex is given: the prompt opens with the introduction and the
      repository line, and ends with the issue's body (or "(empty)") followed
      by the four instructions, so the body can be read back from the end. */
  lemma BuildPromptSpec(issue: Issue, repoPath: string)
    ensures var r := BuildPrompt(issue, repoPath);
      var body := IssueBody(issue);
      && |r| >= |PromptIntro| + |RepoLine(repoPath)| + |body| + |PromptSteps|
      && r[..|PromptIntro|] == PromptIntro
      && r[|PromptIntro|..|PromptIntro| + |RepoLine(repoPath)|] == RepoLine(repoPath)
      && r[|r| - |PromptSteps|..] == PromptSteps
      && r[|r| - |PromptSteps| - |body|..|r| - |PromptSteps|] == body
  {
    PartsOfSix(PromptIntro, RepoLine(repoPath), IssueLine(issue), "Issue body:\n", IssueBody(issue), PromptSteps);
  }

  /** The first two and the last two of six concatenated parts slice back
      out of the whole. */
  lemma PartsOfSix(a: string, b: string, c: string, d: string, e: string, f: string)
    ensures var r := a + b + c + d + e + f;
      && |r| == |a| + |b| + |c| + |d| + |e| + |f|
      && r[..|a|] == a && r[|a|..|a| + |b|] == b
      && r[|r| - |f|..] == f && r[|r| - |f| - |e|..|r| - |f|] == e
  {
    var r := a + b + c + d + e + f;
    assert r == (a + b) + (c + d) + (e + f);
    assert forall i :: 0 <= i < |a| ==> r[i] == a[i];
    assert forall i :: 0 <= i < |b| ==> r[|a| + i] == b[i];
    assert forall i :: 0 <= i < |f| ==> r[|r| - |f| + i] == f[i];
    assert forall i :: 0 <= i < |e| ==> r[|r| - |f| - |e| + i] == e[i];
  }

  /** The comments the worker posts; `NoteText` gives each one's wording. */
  datatype Note =
    | Picked(now: string)
    | DryRunDone(promptPath: string)
    | ExecutionFailed(code: int, logPath: string)
    | NoChanges
    | PrReady(branch: string, prUrl: string, logPath: string)

  /** What the worker does to GitHub and the working copy, in order. A
      pull request for issue `number` is titled `PrTitle(number, issueTitle)`
      and described by `PrBody(number, head)`. */
  datatype Action =
    | Comment(note: Note)
    | ReplaceLabels(labels: set<string>)
    | WritePrompt(path: string, prompt: string)
    | Checkout(branch: string)
    | RunCodex(prompt: string, repoPath: string)
    | CommitAndPush(branch: string)
    | OpenPr(number: int, issueTitle: string, head: string, base: string)

  /** The answers of the outside world during one issue:
      - whether a git command of `ensure_git_identity` or `checkout_branch`
        fails (`run` then raises);
      - what `execute_codex` returned (its exit code) or raised;
      - whether there was anything to commit, and whether a git command of
        `commit_and_push` fails;
      - the labels of the re-fetched issue, an open pull request for the
        branch if one exists, and the URL of a pull request the worker
        opens. */
  datatype World = World(checkoutFails: bool, codex: Result<int>, changed: bool, pushFails: bool,
                         freshLabels: seq<string>, existingPr: Option<string>, createdPrUrl: string)

  /** How an issue's processing ends: after the dry-run comment, with an
      exception out of a git command or `execute_codex`, or with one of the
      three final label changes. */
  datatype Ending = DryRunEnd | Raised | FailedEnd | NoChangesEnd | ReviewEnd {
    predicate Labelled() {
      FailedEnd? || NoChangesEnd? || ReviewEnd?
    }
  }

  function EndingOf(dryRun: bool, w: World): (e: Ending)
    ensures e == DryRunEnd <==> dryRun
    ensures e == Raised <==>
      !dryRun && (w.checkoutFails || w.codex.Err? || (w.codex == Ok(0) && w.pushFails))
    ensures e.Labelled() ==>
      !dryRun && !w.checkoutFails && w.codex.Ok? && e == ReturnedEnding(w.codex.value, w.changed)
  {
    if dryRun then DryRunEnd
    else if w.checkoutFails || w.codex.Err? then Raised
    else if w.codex.value == 0 && w.pushFails then Raised
    else ReturnedEnding(w.codex.value, w.changed)
  }

  /** How processing ends once Codex has returned `code`. */
  function ReturnedEnding(code: int, changed: bool): (e: Ending)
    ensures e.Labelled()
  {
    if code != 0 then FailedEnd
    else if !changed then NoChangesEnd
    else ReviewEnd
  }

  /** The state label an ending puts in place of in-progress. */
  function FinalLabel(e: Ending): string
    requires e.Labelled()
  {
    match e
    case FailedEnd => FailedLabel
    case NoChangesEnd => Done
    case ReviewEnd => WaitingReview
  }

  /** `repo_path / "worker_runs"`, paths joined with `/`. */
  function RunDir(repoPath: string): string {
    repoPath + "/worker_runs"
  }

  function PromptPath(repoPath: string, number: int): string {
    RunDir(repoPath) + "/issue-" + IntToString(number) + "-prompt.md"
  }

  function LogName(number: int): string {
    "issue-" + IntToString(number) + "-codex.log"
  }

  function LogPath(repoPath: string, number: int): string {
    RunDir(repoPath) + "/" + LogName(number)
  }

  // the comments the worker posts, and the pull request it opens

  function NoteText(n: Note): string {
    match n
    case Picked(now) => "Worker picked this task at `" + now + "`."
    case DryRunDone(promptPath) => "Dry-run complete. Prepared prompt at `" + promptPath + "`."
    case ExecutionFailed(code, logPath) =>
      "Worker execution failed.\n\n- Exit code: `" + IntToString(code) + "`\n- Log file: `"
      + logPath + "`\nPlease review worker logs on the home PC."
    case NoChanges =>
      "Worker finished but no file changes were detected. "
      + "Review task detail if additional instructions are needed."
    case PrReady(branch, prUrl, logPath) =>
      "Worker completed and opened/updated a PR.\n\n- Branch: `" + branch + "`\n- PR: "
      + prUrl + "\n- Log file: `" + logPath + "`"
  }

  function PrTitle(number: int, title: string): string {
    "[Task #" + IntToString(number) + "] " + title
  }

  function PrBody(number: int, branch: string): string {
    "Closes #" + IntToString(number) + "\n\nGenerated by automated GitHub worker.\n- Branch: `" + branch
    + "`\n- Log file: `" + LogName(number) + "`"
  }

  /** The pull request the closing comment links: the open one for the
      branch, else the one the worker opened. */
  function PrUrl(w: World): string {
    if w.existingPr.Some? then w.existingPr.value else w.createdPrUrl
  }

  /** The closing comment for ending `e` after Codex returned `code`. */
  function ClosingNote(e: Ending, code: int, w: World, branch: string, logPath: string): Note
    requires e.Labelled()
  {
    match e
    case FailedEnd => ExecutionFailed(code, logPath)
    case NoChangesEnd => NoChanges
    case ReviewEnd => PrReady(branch, PrUrl(w), logPath)
  }

  /** How the actions after Codex returned `code` end for ending `e`: the
      label change to the final label on the freshly read labels, then the
      closing comment; no other label change; the branch pushed exactly for
      waiting-review; a pull request for the branch into "main" opened,
      right before the label change, exactly when waiting-review finds none
      open. Nothing else is done: the conclusion has two actions, or three
      or four for waiting-review. */
  ghost predicate ConcludedAs(tail: seq<Action>, e: Ending, code: int, w: World,
                              number: int, title: string, branch: string, logPath: string)
    requires e.Labelled()
  {
    && |tail| == (if e == ReviewEnd then (if w.existingPr.None? then 4 else 3) else 2)
    && (e == ReviewEnd ==> tail[0] == CommitAndPush(branch))
    && tail[|tail| - 2] == ReplaceLabels(LabelsAfter(w.freshLabels, [FinalLabel(e)], [InProgress]))
    && tail[|tail| - 1] == Comment(ClosingNote(e, code, w, branch, logPath))
    && (forall i :: 0 <= i < |tail| && tail[i].ReplaceLabels? ==> i == |tail| - 2)
    && (CommitAndPush(branch) in tail <==> e == ReviewEnd)
    && (forall i :: 0 <= i < |tail| && tail[i].OpenPr? ==> e == ReviewEnd && w.existingPr.None? && i == |tail| - 3)
    && (e == ReviewEnd && w.existingPr.None? ==>
          |tail| >= 3 && tail[|tail| - 3] == OpenPr(number, title, branch, "main"))
  }

  /** The part of `process_issue` after Codex returned `code` and, when it
      exited 0, `commit_and_push` did not raise: one label change away from
      in-progress and one comment to close, with the push and, when no pull
      request is open for the branch, a new pull request before them only
      when Codex exited 0 and changed something. */
  method Conclude(number: int, title: string, branch: string, logPath: string, code: int, w: World)
    returns (tail: seq<Action>)
    ensures ConcludedAs(tail, ReturnedEnding(code, w.changed), code, w, number, title, branch, logPath)
  {
    var e := ReturnedEnding(code, w.changed);
    if code != 0 {
      assert FinalLabel(e) == FailedLabel;
      tail := [ReplaceLabels(LabelsAfter(w.freshLabels, [FailedLabel], [InProgress])),
               Comment(ExecutionFailed(code, logPath))];
      ClosingShape([], tail);
      return;
    }
    if !w.changed {
      assert FinalLabel(e) == Done;
      tail := [ReplaceLabels(LabelsAfter(w.freshLabels, [Done], [InProgress])),
               Comment(NoChanges)];
      ClosingShape([], tail);
      return;
    }
    assert FinalLabel(e) == WaitingReview;
    tail := [CommitAndPush(branch)];
    var prUrl: string;
    if w.existingPr.Some? {
      prUrl := w.existingPr.value;
    } else {
      tail := tail + [OpenPr(number, title, branch, "main")];
      prUrl := w.createdPrUrl;
    }
    var pre := tail;
    tail := tail + [ReplaceLabels(LabelsAfter(w.freshLabels, [WaitingReview], [InProgress])),
                    Comment(PrReady(branch, prUrl, logPath))];
    ClosingShape(pre, tail);
  }

  /** A run of actions without a label change, then the label change and
      the closing comment. */
  lemma ClosingShape(pre: seq<Action>, tail: seq<Action>)
    requires |tail| == |pre| + 2 && tail[..|pre|] == pre
    requires tail[|pre|].ReplaceLabels? && tail[|pre| + 1].Comment?
    requires forall i :: 0 <= i < |pre| ==> !pre[i].ReplaceLabels?
    ensures forall i :: 0 <= i < |tail| && tail[i].ReplaceLabels? ==> i == |tail| - 2
    ensures forall i :: 0 <= i < |tail| && tail[i].OpenPr? ==> i < |pre| && pre[i].OpenPr?
    ensures forall a: Action :: a.CommitAndPush? ==> (a in tail <==> a in pre)
  {
    forall i | 0 <= i < |pre| ensures tail[i] == pre[i] {
      assert tail[..|pre|][i] == tail[i];
    }
  }

  /** What `process_issue` does, in the order the worker does it, for the
      branch `branch`, the prompt text `prompt`, the prompt file
      `promptPath` and the log file `logPath`. The issue is first commented on and moved to in-progress
      (clearing failed), and its prompt written; a dry run stops after the
      dry-run comment; otherwise the branch is checked out, Codex run and,
      after an exit 0, the work committed and pushed. A git command or Codex
      that raises ends the run with that step, in-progress left in place.
      Once Codex has returned and nothing raised, the labels change exactly
      once more, from in-progress to failed, done or waiting-review, and the
      closing comment follows, as `Conclude` says. */
  ghost predicate ProcessedAs(actions: seq<Action>, issue: Issue, repoPath: string, dryRun: bool, now: string,
                              w: World, branch: string, prompt: string, promptPath: string, logPath: string)
  {
    var e := EndingOf(dryRun, w);
    && |actions| >= 4
    && actions[0] == Comment(Picked(now))
    && actions[1] == ReplaceLabels(LabelsAfter(issue.labels, [InProgress], [FailedLabel]))
    && actions[2] == WritePrompt(promptPath, prompt)
    && (dryRun ==> |actions| == 4 && actions[3] == Comment(DryRunDone(promptPath)))
    && (!dryRun ==> actions[3] == Checkout(branch))
    && (!dryRun && w.checkoutFails ==> |actions| == 4)
    && (!dryRun && !w.checkoutFails ==> |actions| >= 5 && actions[4] == RunCodex(prompt, repoPath))
    && (!dryRun && !w.checkoutFails && w.codex.Err? ==> |actions| == 5)
    && (e == Raised && w.codex == Ok(0) && !w.checkoutFails ==> |actions| == 6 && actions[5] == CommitAndPush(branch))
    && (e.Labelled() ==>
          && |actions| >= 5
          && ConcludedAs(actions[5..], e, w.codex.value, w, issue.number, issue.title, branch, logPath)
          && actions[|actions| - 2] == ReplaceLabels(LabelsAfter(w.freshLabels, [FinalLabel(e)], [InProgress]))
          && actions[|actions| - 1] == Comment(ClosingNote(e, w.codex.value, w, branch, logPath)))
    && (forall i :: 2 <= i < |actions| && actions[i].ReplaceLabels? ==> e.Labelled() && i == |actions| - 2)
    && (CommitAndPush(branch) in actions <==>
          !dryRun && !w.checkoutFails && w.codex == Ok(0) && (w.changed || w.pushFails))
    && (forall i :: 0 <= i < |actions| && actions[i].OpenPr? ==>
          e == ReviewEnd && w.existingPr.None? && i == |actions| - 3)
    && (e == ReviewEnd && w.existingPr.None? ==>
          actions[|actions| - 3] == OpenPr(issue.number, issue.title, branch, "main"))
  }

  /** `process_issue`, on the branch `task/<number>-<slug>` with the prompt
      and the log in the run directory. */
  method ProcessIssue(issue: Issue, repoPath: string, dryRun: bool, now: string, w: World)
    returns (actions: seq<Action>)
    ensures ProcessedAs(actions, issue, repoPath, dryRun, now, w, BranchName(issue.number, issue.title),
                        BuildPrompt(issue, repoPath), PromptPath(repoPath, issue.number),
                        LogPath(repoPath, issue.number))
  {
    var branch := BranchName(issue.number, issue.title);
    var prompt := BuildPrompt(issue, repoPath);
    var promptPath := PromptPath(repoPath, issue.number);
    var logPath := LogPath(repoPath, issue.number);
    actions := ProcessSteps(issue, repoPath, dryRun, now, w, branch, prompt, promptPath, logPath);
  }

  /** The steps of `process_issue` once the branch, the prompt file and the
      log file are named. */
  method ProcessSteps(issue: Issue, repoPath: string, dryRun: bool, now: string, w: World,
                      branch: string, prompt: string, promptPath: string, logPath: string)
    returns (actions: seq<Action>)
    ensures ProcessedAs(actions, issue, repoPath, dryRun, now, w, branch, prompt, promptPath, logPath)
  {
    actions := Opening(issue, now, prompt, promptPath);
    if dryRun {
      actions := actions + [Comment(DryRunDone(promptPath))];
      DryRunStops(issue, repoPath, now, w, branch, prompt, promptPath, logPath);
      return;
    }
    actions := actions + [Checkout(branch)];
    if w.checkoutFails {
      CheckoutRaises(issue, repoPath, now, w, branch, prompt, promptPath, logPath);
      return;
    }
    actions := actions + [RunCodex(prompt, repoPath)];
    if w.codex.Err? {
      CodexRaises(issue, repoPath, now, w, branch, prompt, promptPath, logPath);
      return;
    }
    if w.codex.value == 0 && w.pushFails {
      actions := actions + [CommitAndPush(branch)];
      PushRaises(issue, repoPath, now, w, branch, prompt, promptPath, logPath);
      return;
    }
    var head := actions;
    var tail := Conclude(issue.number, issue.title, branch, logPath, w.codex.value, w);
    actions := head + tail;
    AfterReturn(head, tail, issue, repoPath, now, w, branch, prompt, promptPath, logPath);
  }

  /** The three actions every run starts with. */
  function Opening(issue: Issue, now: string, prompt: string, promptPath: string): seq<Action> {
    [Comment(Picked(now)),
     ReplaceLabels(LabelsAfter(issue.labels, [InProgress], [FailedLabel])),
     WritePrompt(promptPath, prompt)]
  }

  /** A dry run ends with its comment. */
  lemma DryRunStops(issue: Issue, repoPath: string, now: string, w: World,
                    branch: string, prompt: string, promptPath: string, logPath: string)
    ensures ProcessedAs(Opening(issue, now, prompt, promptPath) + [Comment(DryRunDone(promptPath))],
                        issue, repoPath, true, now, w, branch, prompt, promptPath, logPath)
  {
  }

  /** A failing git command before Codex ends the run at the checkout. */
  lemma CheckoutRaises(issue: Issue, repoPath: string, now: string, w: World,
                       branch: string, prompt: string, promptPath: string, logPath: string)
    requires w.checkoutFails
    ensures ProcessedAs(Opening(issue, now, prompt, promptPath) + [Checkout(branch)],
                        issue, repoPath, false, now, w, branch, prompt, promptPath, logPath)
  {
  }

  /** Codex raising ends the run right after it. */
  lemma CodexRaises(issue: Issue, repoPath: string, now: string, w: World,
                    branch: string, prompt: string, promptPath: string, logPath: string)
    requires !w.checkoutFails && w.codex.Err?
    ensures ProcessedAs(Opening(issue, now, prompt, promptPath) + [Checkout(branch)] + [RunCodex(prompt, repoPath)],
                        issue, repoPath, false, now, w, branch, prompt, promptPath, logPath)
  {
  }

  /** A failing git command in `commit_and_push` ends the run there. */
  lemma PushRaises(issue: Issue, repoPath: string, now: string, w: World,
                   branch: string, prompt: string, promptPath: string, logPath: string)
    requires !w.checkoutFails && w.codex == Ok(0) && w.pushFails
    ensures ProcessedAs(Opening(issue, now, prompt, promptPath) + [Checkout(branch)] + [RunCodex(prompt, repoPath)]
                          + [CommitAndPush(branch)],
                        issue, repoPath, false, now, w, branch, prompt, promptPath, logPath)
  {
  }

  /** Once Codex has returned and nothing raised, the run is the opening
      five actions followed by the conclusion. */
  lemma AfterReturn(head: seq<Action>, tail: seq<Action>, issue: Issue, repoPath: string, now: string,
                    w: World, branch: string, prompt: string, promptPath: string, logPath: string)
    requires !w.checkoutFails && w.codex.Ok? && !(w.codex.value == 0 && w.pushFails)
    requires head == Opening(issue, now, prompt, promptPath) + [Checkout(branch)] + [RunCodex(prompt, repoPath)]
    requires ConcludedAs(tail, ReturnedEnding(w.codex.value, w.changed), w.codex.value, w,
                         issue.number, issue.title, branch, logPath)
    ensures ProcessedAs(head + tail, issue, repoPath, false, now, w, branch, prompt, promptPath, logPath)
  {
    var actions := head + tail;
    var e := ReturnedEnding(w.codex.value, w.changed);
    assert EndingOf(false, w) == e;
    assert actions[..5] == head;
    forall i | 5 <= i < |actions| ensures actions[i] == tail[i - 5] {
    }
    forall i | 2 <= i < |actions| && actions[i].ReplaceLabels? ensures i == |actions| - 2 {
      if i >= 5 {
        assert actions[i] == tail[i - 5];
      }
    }
    forall i | 0 <= i < |actions| && actions[i].OpenPr? ensures e == ReviewEnd && w.existingPr.None? && i == |actions| - 3 {
      assert i >= 5 && actions[i] == tail[i - 5];
    }
    assert CommitAndPush(branch) !in head;
    assert CommitAndPush(branch) in actions <==> CommitAndPush(branch) in tail;
  }
}
