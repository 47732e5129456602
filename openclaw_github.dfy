/**
 * The command handling of scripts/openclaw_github_bridge.py: a chat message
 * becomes GitHub issue requests. GitHub's answers are inputs.
 */
module OpenclawGithub {
  import opened Wrappers
  import opened Text
  import GithubWorker

  // ---------------------------------------------------------------------------
  // parse_issue_number

  const NoIssueNumber: string := "이슈 번호를 찾지 못했습니다. 예: /status #12"

  /** `parse_issue_number`: the first run of digits, a '#' before it being
      optional, read as a number. */
  function ParseIssueNumber(text: string): Result<nat> {
    match FirstRun(text, IsDigit, 1)
    case None => Err(NoIssueNumber)
    case Some(digits) => Ok(DigitsValue(digits))
  }

  /** There is an error exactly when the text has no digit; otherwise the
      number is the value of a whole run of digits with none before it. */
  lemma ParseIssueNumberSpec(text: string)
    ensures ParseIssueNumber(text).Err? <==> forall k :: 0 <= k < |text| ==> !IsDigit(text[k])
    ensures ParseIssueNumber(text).Ok? ==>
      exists start, digits :: MaximalRunAt(text, start, digits, IsDigit, 1)
                              && ParseIssueNumber(text).value == DigitsValue(digits)
                              && (forall k :: 0 <= k < start ==> !IsDigit(text[k]))
  {
    FirstRunSpec(text, IsDigit, 1);
    if ParseIssueNumber(text).Err? {
      forall k | 0 <= k < |text| ensures !IsDigit(text[k]) {
        assert !Window(text, k, IsDigit, 1);
      }
    } else {
      var digits := FirstRun(text, IsDigit, 1).value;
      var start :| MaximalRunAt(text, start, digits, IsDigit, 1)
                   && (forall j :: 0 <= j < start ==> !Window(text, j, IsDigit, 1));
      forall k | 0 <= k < start ensures !IsDigit(text[k]) {
        assert !Window(text, k, IsDigit, 1);
      }
    }
  }

  /** Digits written after a text without digits are read back. */
  lemma ParseIssueNumberRoundTrip(prefix: string, digits: string)
    requires forall k :: 0 <= k < |prefix| ==> !IsDigit(prefix[k])
    requires IsDigits(digits)
    ensures ParseIssueNumber(prefix + digits) == Ok(DigitsValue(digits))
  {
    FirstRunAfter(prefix, digits, IsDigit, 1);
  }

  // ---------------------------------------------------------------------------
  // parse_task_cmd

  const TaskFormat: string := "형식: /task <제목> | <목표> | <우선순위(선택)>"
  const DefaultPriority: string := "P1 - 높음"

  datatype TaskFields = TaskFields(title: string, objective: string, priority: string)

  /** Every part stripped. */
  function StripAll(parts: seq<string>): (r: seq<string>)
    ensures |r| == |parts| && forall k :: 0 <= k < |parts| ==> r[k] == Strip(parts[k])
  {
    seq(|parts|, k requires 0 <= k < |parts| => Strip(parts[k]))
  }

  /** `message[len("/task"):]` */
  function AfterTask(message: string): string {
    if |message| <= 5 then [] else message[5..]
  }

  /** The fields of a task from its stripped parts. */
  function FieldsOf(parts: seq<string>): TaskFields
    requires |parts| >= 2
  {
    TaskFields(parts[0], parts[1], if |parts| >= 3 && parts[2] != [] then parts[2] else DefaultPriority)
  }

  /** `parse_task_cmd` */
  function ParseTaskCmd(message: string): Result<TaskFields> {
    var parts := StripAll(Split(Strip(AfterTask(message)), '|'));
    if |parts| < 2 then Err(TaskFormat) else Ok(FieldsOf(parts))
  }

  /** The command fails exactly when the text after "/task" has no '|'. */
  lemma ParseTaskCmdSpec(message: string)
    ensures ParseTaskCmd(message).Err? <==> Count(Strip(AfterTask(message)), '|') == 0
  {
  }

  /** A string with nothing to strip at either end. */
  predicate Trimmed(s: string) {
    s == [] || (!IsSpace(s[0]) && !IsSpace(s[|s| - 1]))
  }

  lemma TrimmedStrip(s: string)
    requires Trimmed(s)
    ensures Strip(s) == s
  {
    if s != [] {
      StripByFramedless(s, Whitespace);
    }
  }

  /** Title, objective and the optional parts written as "/task a|b|c" are
      read back: each part trimmed and free of '|', the priority defaulting
      when the third part is missing or empty, extra parts ignored. */
  lemma ParseTaskCmdRoundTrip(parts: seq<string>)
    requires |parts| >= 2
    requires forall k :: 0 <= k < |parts| ==> Trimmed(parts[k]) && '|' !in parts[k]
    ensures ParseTaskCmd("/task " + Join(parts, '|')) == Ok(FieldsOf(parts))
  {
    var joined := Join(parts, '|');
    AfterTaskOf(joined);
    JoinTrimmed(parts);
    StripLeadingBlank(joined);
    var stripped := Strip(AfterTask("/task " + joined));
    assert stripped == joined;
    SplitJoin(parts, '|');
    assert Split(stripped, '|') == parts;
    StripAllTrimmed(parts);
  }

  /** Stripping parts that are already trimmed changes nothing. */
  lemma StripAllTrimmed(parts: seq<string>)
    requires forall k :: 0 <= k < |parts| ==> Trimmed(parts[k])
    ensures StripAll(parts) == parts
  {
    forall k | 0 <= k < |parts| ensures Strip(parts[k]) == parts[k] {
      TrimmedStrip(parts[k]);
    }
  }

  lemma AfterTaskOf(rest: string)
    ensures AfterTask("/task " + rest) == " " + rest
  {
    assert ("/task " + rest)[5..] == " " + rest;
  }

  /** Trimmed parts joined by '|' give a trimmed, non-empty string. */
  lemma JoinTrimmed(parts: seq<string>)
    requires |parts| >= 2
    requires forall k :: 0 <= k < |parts| ==> Trimmed(parts[k])
    ensures Join(parts, '|') != [] && Trimmed(Join(parts, '|'))
  {
    JoinEnds(parts, '|');
    assert !IsSpace('|');
  }

  /** A joined string of at least two parts starts with its first part's
      first character, or the separator, and ends likewise. */
  lemma {:induction false} JoinEnds(parts: seq<string>, sep: char)
    requires |parts| >= 2
    ensures var j := Join(parts, sep);
      && j != []
      && j[0] == (if parts[0] != [] then parts[0][0] else sep)
      && j[|j| - 1] == (if parts[|parts| - 1] != [] then parts[|parts| - 1][|parts[|parts| - 1]| - 1] else sep)
  {
    var rest := Join(parts[1..], sep);
    assert Join(parts, sep) == parts[0] + [sep] + rest;
    if |parts| > 2 {
      JoinEnds(parts[1..], sep);
    }
  }

  /** One blank before a trimmed non-empty string is stripped away. */
  lemma StripLeadingBlank(s: string)
    requires s != [] && Trimmed(s)
    ensures Strip(" " + s) == s
  {
    assert (" " + s)[1..] == s;
    assert TrimLeft(" " + s, Whitespace) == TrimLeft(s, Whitespace);
    StripByFramedless(s, Whitespace);
  }

  // ---------------------------------------------------------------------------
  // the GitHub requests

  /** A call on the GitHub issues API. */
  datatype Request =
    | CreateIssue(title: string, body: string, labels: seq<string>)
    | GetIssue(number: nat)
    | UpdateIssue(number: nat, state: string, labels: seq<string>)
    | AddComment(number: nat, body: string)

  const TaskLabel: string := "task"
  const CancelComment: string := "Canceled by OpenClaw command."

  /** The issue body `create_issue` writes. */
  function IssueBody(objective: string, priority: string): string {
    "## 작업 목표\n- " + objective + "\n\n## 완료 기준\n- [ ] 요구사항 충족\n- [ ] 테스트/검증 완료\n"
    + "- [ ] PR 생성 및 리뷰 가능 상태\n\n## 우선순위\n" + priority + "\n"
  }

  /** `create_issue`: the title marked "[Task] " and the one label the issue
      worker lists issues by. */
  function CreateIssueRequest(f: TaskFields): Request {
    CreateIssue("[Task] " + f.title, IssueBody(f.objective, f.priority), [TaskLabel])
  }

  /** The labels `/cancel` sends: `sorted(set(existing + ["canceled"]))`. */
  function CancelLabels(existing: seq<string>): (r: seq<string>)
    ensures StrictlySorted(r) && Elems(r) == Elems(existing) + {GithubWorker.Canceled}
  {
    SortedDistinct(existing + [GithubWorker.Canceled])
  }

  /** The labels `/cancel` sends are the only list of that set in sorted
      order without repeats, and always hold "canceled". */
  lemma CancelLabelsSpec(existing: seq<string>, labels: seq<string>)
    requires StrictlySorted(labels) && Elems(labels) == Elems(existing) + {GithubWorker.Canceled}
    ensures CancelLabels(existing) == labels
    ensures GithubWorker.Canceled in CancelLabels(existing)
  {
    StrictlySortedUnique(CancelLabels(existing), labels);
    assert GithubWorker.Canceled in Elems(labels);
  }

  // ---------------------------------------------------------------------------
  // handle_command

  datatype Command = NewTask(fields: TaskFields) | IssueStatus(number: nat) | Cancel(number: nat) | Help

  const HelpText: string :=
    "지원 명령:\n- /task <제목> | <목표> | <우선순위(선택)>\n- /status #<이슈번호>\n- /cancel #<이슈번호>"

  /** `handle_command` up to its GitHub calls: the stripped message is
      routed on "/task ", "/status " and "/cancel ", in that order, each
      with its trailing blank; anything else gets the help text. */
  function Dispatch(message: string): Result<Command> {
    Route(Strip(message))
  }

  function Route(msg: string): Result<Command> {
    if StartsWith(msg, "/task ") then
      match ParseTaskCmd(msg)
      case Err(e) => Err(e)
      case Ok(f) => Ok(NewTask(f))
    else if StartsWith(msg, "/status ") then
      match ParseIssueNumber(msg)
      case Err(e) => Err(e)
      case Ok(n) => Ok(IssueStatus(n))
    else if StartsWith(msg, "/cancel ") then
      match ParseIssueNumber(msg)
      case Err(e) => Err(e)
      case Ok(n) => Ok(Cancel(n))
    else Ok(Help)
  }

  /** The GitHub calls a command makes, in order; `existing` are the label
      names of the issue `GetIssue` returns. */
  function Requests(cmd: Command, existing: seq<string>): seq<Request> {
    match cmd
    case NewTask(f) => [CreateIssueRequest(f)]
    case IssueStatus(n) => [GetIssue(n)]
    case Cancel(n) => [GetIssue(n), UpdateIssue(n, "closed", CancelLabels(existing)), AddComment(n, CancelComment)]
    case Help => []
  }

  /** Routing: without one of the three prefixes, trailing blank included,
      the answer is the help text and no call is made; with one, the
      message fails exactly when its argument cannot be read. */
  lemma RouteSpec(msg: string)
    ensures !StartsWith(msg, "/task ") && !StartsWith(msg, "/status ") && !StartsWith(msg, "/cancel ") ==>
              Route(msg) == Ok(Help) && Requests(Route(msg).value, []) == []
    ensures StartsWith(msg, "/task ") ==> (Route(msg).Err? <==> Count(Strip(AfterTask(msg)), '|') == 0)
    ensures !StartsWith(msg, "/task ") && (StartsWith(msg, "/status ") || StartsWith(msg, "/cancel ")) ==>
              (Route(msg).Err? <==> forall k :: 0 <= k < |msg| ==> !IsDigit(msg[k]))
    ensures Route(msg) != Ok(Help) ==>
              StartsWith(msg, "/task ") || StartsWith(msg, "/status ") || StartsWith(msg, "/cancel ")
  {
    if StartsWith(msg, "/task ") {
      RouteTaskErr(msg);
    } else if StartsWith(msg, "/status ") || StartsWith(msg, "/cancel ") {
      RouteNumberErr(msg);
    }
  }

  lemma RouteTaskErr(msg: string)
    requires StartsWith(msg, "/task ")
    ensures Route(msg).Err? <==> Count(Strip(AfterTask(msg)), '|') == 0
  {
    ParseTaskCmdSpec(msg);
  }

  lemma RouteNumberErr(msg: string)
    requires !StartsWith(msg, "/task ") && (StartsWith(msg, "/status ") || StartsWith(msg, "/cancel "))
    ensures Route(msg).Err? <==> forall k :: 0 <= k < |msg| ==> !IsDigit(msg[k])
  {
    ParseIssueNumberSpec(msg);
  }

  /** The documented forms are understood: "/status #n" and "/cancel #n"
      name issue n, and "/task a|b|c" creates a task with fields a, b, c. */
  lemma DispatchRoundTrip(n: nat, parts: seq<string>)
    requires |parts| >= 2
    requires forall k :: 0 <= k < |parts| ==> Trimmed(parts[k]) && '|' !in parts[k]
    ensures Dispatch("/status #" + NatToString(n)) == Ok(IssueStatus(n))
    ensures Dispatch("/cancel #" + NatToString(n)) == Ok(Cancel(n))
    ensures Dispatch("/task " + Join(parts, '|')) == Ok(NewTask(FieldsOf(parts)))
  {
    StatusRoundTrip(n);
    CancelRoundTrip(n);
    TaskRoundTrip(parts);
  }

  lemma StatusRoundTrip(n: nat)
    ensures Dispatch("/status #" + NatToString(n)) == Ok(IssueStatus(n))
  {
    NatToStringRoundTrip(n);
    NumberCommand(NatToString(n));
  }

  lemma CancelRoundTrip(n: nat)
    ensures Dispatch("/cancel #" + NatToString(n)) == Ok(Cancel(n))
  {
    NatToStringRoundTrip(n);
    NumberCommand(NatToString(n));
  }

  /** "/status #" or "/cancel #" followed by digits names that number. */
  lemma NumberCommand(digits: string)
    requires IsDigits(digits)
    ensures Dispatch("/status #" + digits) == Ok(IssueStatus(DigitsValue(digits)))
    ensures Dispatch("/cancel #" + digits) == Ok(Cancel(DigitsValue(digits)))
  {
    CommandWords();
    var v := DigitsValue(digits);
    assert Dispatch("/status #" + digits) == Ok(IssueStatus(v)) by {
      NumberMessage("/status #", "/status ", digits);
      RouteNumber("/status #" + digits, v);
    }
    assert Dispatch("/cancel #" + digits) == Ok(Cancel(v)) by {
      NumberMessage("/cancel #", "/cancel ", digits);
      RouteNumber("/cancel #" + digits, v);
    }
  }

  /** A command word, then digits: stripped, starting with its prefix, and
      naming the number the digits write. */
  lemma NumberMessage(word: string, p: string, digits: string)
    requires word != [] && word[0] == '/' && IsDigits(digits)
    requires forall k :: 0 <= k < |word| ==> !IsDigit(word[k])
    requires |p| <= |word| && word[..|p|] == p
    ensures Strip(word + digits) == word + digits
    ensures StartsWith(word + digits, p)
    ensures ParseIssueNumber(word + digits) == Ok(DigitsValue(digits))
  {
    ParseIssueNumberRoundTrip(word, digits);
    NumberedStripped(word, digits);
    WordPrefix(word, p, digits);
  }

  /** A concatenation starts with its first part. */
  lemma ConcatStartsWith(word: string, rest: string)
    ensures StartsWith(word + rest, word)
  {
    assert (word + rest)[..|word|] == word;
  }

  lemma WordPrefix(word: string, p: string, rest: string)
    requires |p| <= |word| && word[..|p|] == p
    ensures StartsWith(word + rest, p)
  {
    assert (word + rest)[..|p|] == word[..|p|];
  }

  /** How a message with an issue number is routed. */
  lemma RouteNumber(msg: string, n: nat)
    requires ParseIssueNumber(msg) == Ok(n)
    ensures StartsWith(msg, "/status ") ==> Route(msg) == Ok(IssueStatus(n))
    ensures StartsWith(msg, "/cancel ") ==> Route(msg) == Ok(Cancel(n))
  {
    if StartsWith(msg, "/status ") || StartsWith(msg, "/cancel ") {
      NotTaskWord(msg);
    }
  }

  lemma NotTaskWord(msg: string)
    requires StartsWith(msg, "/status ") || StartsWith(msg, "/cancel ")
    ensures !StartsWith(msg, "/task ")
  {
    if StartsWith(msg, "/status ") {
      PrefixChar(msg, "/status ", 1);
    } else {
      PrefixChar(msg, "/cancel ", 1);
    }
  }

  /** Facts about the command words themselves. */
  lemma CommandWords()
    ensures forall k :: 0 <= k < 9 ==> !IsDigit("/status #"[k]) && !IsDigit("/cancel #"[k])
    ensures "/status #"[..8] == "/status " && "/cancel #"[..8] == "/cancel "
  {
  }

  /** A command word starting with '/' followed by digits is already
      stripped. */
  lemma NumberedStripped(word: string, digits: string)
    requires word != [] && word[0] == '/' && IsDigits(digits)
    ensures Strip(word + digits) == word + digits
  {
    var msg := word + digits;
    assert msg[0] == '/' && msg[|msg| - 1] == digits[|digits| - 1];
    assert Trimmed(msg);
    TrimmedStrip(msg);
  }

  lemma TaskRoundTrip(parts: seq<string>)
    requires |parts| >= 2
    requires forall k :: 0 <= k < |parts| ==> Trimmed(parts[k]) && '|' !in parts[k]
    ensures Dispatch("/task " + Join(parts, '|')) == Ok(NewTask(FieldsOf(parts)))
  {
    ParseTaskCmdRoundTrip(parts);
    JoinTrimmed(parts);
    TaskMessage(Join(parts, '|'));
    RouteTask("/task " + Join(parts, '|'), FieldsOf(parts));
  }

  /** "/task " followed by trimmed text is already stripped. */
  lemma TaskMessage(rest: string)
    requires rest != [] && Trimmed(rest)
    ensures Strip("/task " + rest) == "/task " + rest
    ensures StartsWith("/task " + rest, "/task ")
  {
    TrimmedAfter("/task ", rest);
    TrimmedStrip("/task " + rest);
    ConcatStartsWith("/task ", rest);
  }

  /** A stripped "/task " message whose fields parse becomes a new task. */
  lemma RouteTask(msg: string, f: TaskFields)
    requires Strip(msg) == msg && StartsWith(msg, "/task ") && ParseTaskCmd(msg) == Ok(f)
    ensures Dispatch(msg) == Ok(NewTask(f))
  {
  }

  /** A word with a visible first character, then trimmed text, is trimmed. */
  lemma TrimmedAfter(word: string, rest: string)
    requires word != [] && !IsSpace(word[0]) && rest != [] && Trimmed(rest)
    ensures Trimmed(word + rest)
  {
    assert (word + rest)[0] == word[0];
    assert (word + rest)[|word + rest| - 1] == rest[|rest| - 1];
  }

  /** "/cancel" reads the issue, closes it with its labels plus "canceled",
      sorted and without repeats, and then leaves a comment. */
  lemma CancelRequests(n: nat, existing: seq<string>)
    ensures var rs := Requests(Cancel(n), existing);
      && |rs| == 3 && rs[0] == GetIssue(n) && rs[2] == AddComment(n, CancelComment)
      && rs[1].UpdateIssue? && rs[1].number == n && rs[1].state == "closed"
      && StrictlySorted(rs[1].labels)
      && Elems(rs[1].labels) == Elems(existing) + {GithubWorker.Canceled}
  {
  }

  // ---------------------------------------------------------------------------
  // the issue lifecycle seen by the issue worker

  /** An issue created by "/task" is one the issue worker lists (it carries
      the "task" label and is no pull request) and may claim; once
      "/cancel" has relabelled it, the worker never claims it. */
  lemma LifecycleWithWorker(f: TaskFields, number: int, existing: seq<string>)
    ensures var r := CreateIssueRequest(f);
      var created := GithubWorker.Issue(number, r.title, Some(r.body), r.labels, false);
      && r.title == "[Task] " + f.title && r.labels == [TaskLabel]
      && GithubWorker.OpenTaskIssues([created]) == [created]
      && GithubWorker.Claimable(created)
    ensures var canceled := GithubWorker.Issue(number, f.title, None, CancelLabels(existing), false);
      !GithubWorker.Claimable(canceled)
  {
    var labels := CancelLabels(existing);
    assert GithubWorker.Canceled in Elems(labels);
  }
}
