/**
 * The command handling of scripts/openclaw_http_bridge.py: a chat message
 * becomes a call on the HTTP bridge and a text reply. The bridge's answers
 * are inputs; a failed call is an error answer.
 */
module OpenclawHttp {
  import opened Wrappers
  import opened Text
  import Json

  /** The default limit of `truncate` here. */
  const TruncateLimit: nat := 1000

  // ---------------------------------------------------------------------------
  // extract_job_id

  /** A character of `[0-9a-fA-F-]`. */
  predicate IsIdChar(c: char) {
    IsDigit(c) || 'a' <= c <= 'f' || 'A' <= c <= 'F' || c == '-'
  }

  const MinIdLength := 16

  const NoJobId: string := "job_id를 찾지 못했습니다. 예: /status <job_id>"

  /** `extract_job_id` */
  function ExtractJobId(text: string): Result<string> {
    match FirstRun(text, IsIdChar, MinIdLength)
    case None => Err(NoJobId)
    case Some(id) => Ok(id)
  }

  /** The id found is a whole run of at least 16 characters of
      `[0-9a-fA-F-]` in the text, and no sixteen such characters in a row
      start earlier; there is an error exactly when the text holds no
      sixteen in a row. */
  lemma ExtractJobIdSpec(text: string)
    ensures ExtractJobId(text).Err? <==> NoWindowFrom(text, 0, IsIdChar, MinIdLength)
    ensures ExtractJobId(text).Ok? ==>
      exists start :: MaximalRunAt(text, start, ExtractJobId(text).value, IsIdChar, MinIdLength)
                      && (forall j :: 0 <= j < start ==> !Window(text, j, IsIdChar, MinIdLength))
  {
    FirstRunSpec(text, IsIdChar, MinIdLength);
  }

  // ---------------------------------------------------------------------------
  // job status text

  /** `"\n- ".join(lines)` after a header ending in "\n- ": every line on its
      own bullet. */
  function Bulleted(lines: seq<string>): string {
    if lines == [] then [] else "\n- " + lines[0] + Bulleted(lines[1..])
  }

  const InProgressHeader: string := "작업 진행 중"
  const DoneHeader: string := "작업 완료 상태"

  /** The three lines every status text starts with. */
  function BaseLines(job: Json.Object): seq<string> {
    ["job_id: `" + Json.PyStr(Json.Get(job, "id", Json.Str("-"))) + "`",
     "status: `" + Json.PyStr(Json.StatusOf(job)) + "`",
     "created_at: `" + Json.PyStr(Json.Get(job, "created_at", Json.Str("-"))) + "`"]
  }

  function ReturnCodeLine(job: Json.Object): string {
    "return_code: `" + Json.PyStr(Json.Get(job, "return_code", Json.Null)) + "`"
  }

  /** The lines every finished job's status starts with. */
  function FinishedBase(job: Json.Object): seq<string> {
    BaseLines(job) + [ReturnCodeLine(job)]
  }

  function StdoutLine(t: string): string {
    "stdout:\n```text\n" + t + "\n```"
  }

  function StderrLine(t: string): string {
    "stderr:\n```text\n" + t + "\n```"
  }

  function ErrorLine(t: string): string {
    "error: `" + t + "`"
  }

  function LineIf(t: string, line: string): seq<string> {
    if t != [] then [line] else []
  }

  /** The lines of a finished job: the base lines, its return code, then
      each of stdout, stderr and error that is non-empty after truncation;
      or the error reading one of them raises. */
  function DoneLines(job: Json.Object): Result<seq<string>> {
    match Json.Outputs(job, TruncateLimit)
    case Err(e) => Err(e)
    case Ok((out, err, error)) =>
      Ok(FinishedBase(job) + LineIf(out, StdoutLine(out))
         + LineIf(err, StderrLine(err)) + LineIf(error, ErrorLine(error)))
  }

  /** The text `format_job_status` returns. */
  function JobStatusText(job: Json.Object): Result<string> {
    if Json.IsActive(Json.StatusOf(job)) then Ok(InProgressHeader + Bulleted(BaseLines(job)))
    else
      match DoneLines(job)
      case Err(e) => Err(e)
      case Ok(lines) => Ok(DoneHeader + Bulleted(lines))
  }

  /** `format_job_status` */
  method FormatJobStatus(job: Json.Object) returns (r: Result<string>)
    ensures r == JobStatusText(job)
  {
    var status := Json.StatusOf(job);
    if Json.IsActive(status) {
      return Ok(InProgressHeader + Bulleted(BaseLines(job)));
    }
    var lines := FinishedLines(job);
    if lines.Err? {
      return Err(lines.error);
    }
    r := Ok(DoneHeader + Bulleted(lines.value));
  }

  /** The lines `format_job_status` collects for a finished job. */
  method FinishedLines(job: Json.Object) returns (r: Result<seq<string>>)
    ensures r == DoneLines(job)
  {
    var out := Json.TruncateValue(Json.Get(job, "stdout", Json.Str("")), TruncateLimit);
    if out.Err? {
      assert Json.Outputs(job, TruncateLimit) == Err(out.error);
      return Err(out.error);
    }
    var err := Json.TruncateValue(Json.Get(job, "stderr", Json.Str("")), TruncateLimit);
    if err.Err? {
      assert Json.Outputs(job, TruncateLimit) == Err(err.error);
      return Err(err.error);
    }
    var error := Json.TruncateValue(Json.Get(job, "error", Json.Str("")), TruncateLimit);
    if error.Err? {
      assert Json.Outputs(job, TruncateLimit) == Err(error.error);
      return Err(error.error);
    }
    assert Json.Outputs(job, TruncateLimit) == Ok((out.value, err.value, error.value));
    var lines := FinishedBase(job);
    if out.value != [] {
      lines := lines + [StdoutLine(out.value)];
    }
    assert lines == FinishedBase(job) + LineIf(out.value, StdoutLine(out.value));
    if err.value != [] {
      lines := lines + [StderrLine(err.value)];
    }
    assert lines == FinishedBase(job) + LineIf(out.value, StdoutLine(out.value))
                    + LineIf(err.value, StderrLine(err.value));
    if error.value != [] {
      lines := lines + [ErrorLine(error.value)];
    }
    assert lines == FinishedBase(job) + LineIf(out.value, StdoutLine(out.value))
                    + LineIf(err.value, StderrLine(err.value)) + LineIf(error.value, ErrorLine(error.value));
    r := Ok(lines);
  }

  /** A job record as the HTTP bridge sends it. */
  predicate BridgeRecord(job: Json.Object) {
    && "stdout" in job && job["stdout"].Str?
    && "stderr" in job && job["stderr"].Str?
    && "error" in job && (job["error"].Str? || job["error"].Null?)
  }

  /** A record from the HTTP bridge always formats. A queued or running job
      shows only id, status and creation time; a finished one adds its return
      code, then its stdout exactly when it is not blank, its stderr likewise
      and its error exactly when one was recorded, each cut to 1000
      characters, in that order. */
  lemma JobStatusTextSpec(job: Json.Object)
    requires BridgeRecord(job)
    ensures JobStatusText(job).Ok?
    ensures !Json.IsActive(Json.StatusOf(job)) ==>
      var out := Truncate(job["stdout"].s, TruncateLimit);
      var err := Truncate(job["stderr"].s, TruncateLimit);
      var error := if job["error"].Str? then Truncate(job["error"].s, TruncateLimit) else "";
      && JobStatusText(job) == Ok(DoneHeader + Bulleted(FinishedBase(job))
                                  + (Bullet(out, StdoutLine(out)) + Bullet(err, StderrLine(err)) + Bullet(error, ErrorLine(error))))
      && (out != [] <==> Strip(job["stdout"].s) != [])
      && (err != [] <==> Strip(job["stderr"].s) != [])
      && (error != [] <==> job["error"].Str? && Strip(job["error"].s) != [])
  {
    if !Json.IsActive(Json.StatusOf(job)) {
      var out := Truncate(job["stdout"].s, TruncateLimit);
      var err := Truncate(job["stderr"].s, TruncateLimit);
      var error := if job["error"].Str? then Truncate(job["error"].s, TruncateLimit) else "";
      assert Json.Outputs(job, TruncateLimit) == Ok((out, err, error));
      DoneText(job, out, err, error);
    }
  }

  /** The text of a finished job whose outputs read `out`, `err` and
      `error`. */
  lemma DoneText(job: Json.Object, out: string, err: string, error: string)
    requires !Json.IsActive(Json.StatusOf(job)) && Json.Outputs(job, TruncateLimit) == Ok((out, err, error))
    ensures JobStatusText(job) == Ok(DoneHeader + Bulleted(FinishedBase(job))
                                  + (Bullet(out, StdoutLine(out)) + Bullet(err, StderrLine(err)) + Bullet(error, ErrorLine(error))))
  {
    var base := FinishedBase(job);
    var lo, le, lr := StdoutLine(out), StderrLine(err), ErrorLine(error);
    var lines := base + LineIf(out, lo) + LineIf(err, le) + LineIf(error, lr);
    var tail := Bullet(out, lo) + Bullet(err, le) + Bullet(error, lr);
    assert DoneLines(job) == Ok(lines);
    calc {
      JobStatusText(job);
    ==
      Ok(DoneHeader + Bulleted(lines));
    == { BulletedLines(base, out, lo, err, le, error, lr); }
      Ok(DoneHeader + (Bulleted(base) + tail));
    == { ConcatAssoc(DoneHeader, Bulleted(base), tail); }
      Ok(DoneHeader + Bulleted(base) + tail);
    }
  }

  /** One bullet for `line` when `t` is non-empty, else nothing. */
  function Bullet(t: string, line: string): string {
    if t != [] then "\n- " + line else ""
  }

  /** The bulleted lines of a finished job are the bulleted base lines
      followed by one bullet per non-empty output. */
  lemma BulletedLines(base: seq<string>, a: string, la: string, b: string, lb: string, c: string, lc: string)
    ensures Bulleted(base + LineIf(a, la) + LineIf(b, lb) + LineIf(c, lc))
            == Bulleted(base) + (Bullet(a, la) + Bullet(b, lb) + Bullet(c, lc))
  {
    var x, y, z := LineIf(a, la), LineIf(b, lb), LineIf(c, lc);
    var p, q, r := Bullet(a, la), Bullet(b, lb), Bullet(c, lc);
    calc {
      Bulleted(base + x + y + z);
    == { BulletedConcat(base + x + y, z); }
      Bulleted(base + x + y) + Bulleted(z);
    == { BulletedConcat(base + x, y); }
      Bulleted(base + x) + Bulleted(y) + Bulleted(z);
    == { BulletedConcat(base, x); }
      Bulleted(base) + Bulleted(x) + Bulleted(y) + Bulleted(z);
    == { BulletedLineIf(a, la); BulletedLineIf(b, lb); BulletedLineIf(c, lc); }
      Bulleted(base) + p + q + r;
    == { ConcatAssoc4(Bulleted(base), p, q, r); }
      Bulleted(base) + (p + q + r);
    }
  }

  lemma BulletedLineIf(t: string, line: string)
    ensures Bulleted(LineIf(t, line)) == Bullet(t, line)
  {
    if t != [] {
      assert LineIf(t, line)[1..] == [];
    }
  }

  /** Bulleting distributes over concatenation. */
  lemma {:induction false} BulletedConcat(xs: seq<string>, ys: seq<string>)
    ensures Bulleted(xs + ys) == Bulleted(xs) + Bulleted(ys)
  {
    if xs != [] {
      assert (xs + ys)[1..] == xs[1..] + ys;
      BulletedConcat(xs[1..], ys);
    } else {
      assert xs + ys == ys;
    }
  }

  // ---------------------------------------------------------------------------
  // wait_until_done

  predicate IsFinished(job: Json.Object) {
    var status := Json.Get(job, "status", Json.Null);
    status == Json.Str("succeeded") || status == Json.Str("failed")
  }

  /** The record `wait_until_done` returns when the polls made before the
      deadline answered `polls`, and a poll after the deadline would answer
      `late` (an `Err` when that call raises): the first finished record;
      failing that the last one polled, unless it is empty (false in
      Python) or there was none, in which case one more poll. */
  function WaitResult(polls: seq<Json.Object>, late: Result<Json.Object>): Result<Json.Object> {
    if polls == [] then late
    else if IsFinished(polls[0]) then Ok(polls[0])
    else if |polls| == 1 then (if polls[0] != map[] then Ok(polls[0]) else late)
    else WaitResult(polls[1..], late)
  }

  /** `wait_until_done`, with the clock replaced by the number of polls it
      has time for: `polls` holds the answers to those polls in order. */
  method WaitUntilDone(polls: seq<Json.Object>, late: Result<Json.Object>) returns (r: Result<Json.Object>)
    ensures r == WaitResult(polls, late)
  {
    ShiftedWait(polls, late);
    var last: Option<Json.Object> := None;
    var i := 0;
    while i < |polls|
      invariant 0 <= i <= |polls|
      invariant last == (if i == 0 then None else Some(polls[i - 1]))
      invariant WaitResult(polls, late) == WaitAfter(polls, i, late)
    {
      last := Some(polls[i]);
      if IsFinished(polls[i]) {
        return Ok(polls[i]);
      }
      i := i + 1;
    }
    if last.Some? && last.value != map[] {
      return Ok(last.value);
    }
    return late;
  }

  /** The result once the first `i` polls are known not to be finished. */
  function WaitAfter(polls: seq<Json.Object>, i: nat, late: Result<Json.Object>): Result<Json.Object>
    requires i <= |polls|
    decreases |polls| - i
  {
    if i == |polls| then (if i > 0 && polls[i - 1] != map[] then Ok(polls[i - 1]) else late)
    else if IsFinished(polls[i]) then Ok(polls[i])
    else WaitAfter(polls, i + 1, late)
  }

  /** The wait ends with the first finished record; with none it ends with
      the last poll if that is not empty, else with a late poll. */
  lemma WaitResultSpec(polls: seq<Json.Object>, late: Result<Json.Object>)
    ensures forall i :: 0 <= i < |polls| && IsFinished(polls[i]) && (forall k :: 0 <= k < i ==> !IsFinished(polls[k]))
              ==> WaitResult(polls, late) == Ok(polls[i])
    ensures (forall k :: 0 <= k < |polls| ==> !IsFinished(polls[k])) ==>
              WaitResult(polls, late) == (if polls != [] && polls[|polls| - 1] != map[] then Ok(polls[|polls| - 1]) else late)
  {
    ShiftedWait(polls, late);
    WaitAfterSpec(polls, 0, late);
  }

  lemma {:induction false} WaitAfterSpec(polls: seq<Json.Object>, i: nat, late: Result<Json.Object>)
    requires i <= |polls|
    ensures forall j :: i <= j < |polls| && IsFinished(polls[j]) && (forall k :: i <= k < j ==> !IsFinished(polls[k]))
              ==> WaitAfter(polls, i, late) == Ok(polls[j])
    ensures (forall k :: i <= k < |polls| ==> !IsFinished(polls[k])) ==>
              WaitAfter(polls, i, late) == (if |polls| > 0 && polls[|polls| - 1] != map[] then Ok(polls[|polls| - 1]) else late)
    decreases |polls| - i
  {
    if i < |polls| {
      WaitAfterSpec(polls, i + 1, late);
    }
  }

  /** The recursive definition and the index-based one agree. */
  lemma {:induction false} ShiftedWait(polls: seq<Json.Object>, late: Result<Json.Object>)
    ensures WaitResult(polls, late) == WaitAfter(polls, 0, late)
  {
    if polls != [] && !IsFinished(polls[0]) && |polls| > 1 {
      ShiftedWait(polls[1..], late);
      ShiftedAfter(polls, 0, late);
    }
  }

  lemma {:induction false} ShiftedAfter(polls: seq<Json.Object>, i: nat, late: Result<Json.Object>)
    requires 2 <= |polls| && i < |polls|
    ensures WaitAfter(polls[1..], i, late) == WaitAfter(polls, i + 1, late)
    decreases |polls| - i
  {
    if i + 1 < |polls| {
      ShiftedAfter(polls, i + 1, late);
    }
  }

  // ---------------------------------------------------------------------------
  // handle_command

  /** What a message asks for. */
  datatype Command =
    | Task(prompt: string)
    | Status(jobId: string)
    | TaskWait(prompt: string)
    | Health
    | Help

  const TaskUsage: string := "형식: /task <Codex에 전달할 프롬프트>"
  const TaskWaitUsage: string := "형식: /taskwait <프롬프트>"

  /** The routing of `handle_command` on the stripped message, with the
      checks `handle_task`, `extract_job_id` and the `/taskwait` branch make
      before calling the bridge. */
  function Dispatch(message: string): Result<Command> {
    Route(Strip(message))
  }

  /** The routing of an already stripped message. */
  function Route(msg: string): Result<Command> {
    if StartsWith(msg, "/task ") then
      var prompt := Strip(msg[|"/task"|..]);
      if prompt == [] then Err(TaskUsage) else Ok(Task(prompt))
    else if StartsWith(msg, "/status ") then
      match ExtractJobId(msg)
      case Err(e) => Err(e)
      case Ok(id) => Ok(Status(id))
    else if StartsWith(msg, "/taskwait ") then
      var prompt := Strip(msg[|"/taskwait"|..]);
      if prompt == [] then Err(TaskWaitUsage) else Ok(TaskWait(prompt))
    else if msg == "/health" then Ok(Health)
    else Ok(Help)
  }

  /** A message ending in a visible character that has a blank after its
      first word still has something after that blank. */
  lemma RestNotBlank(msg: string, n: nat)
    requires n < |msg| && !IsSpace(msg[|msg| - 1])
    ensures Strip(msg[n..]) != []
  {
    var rest := msg[n..];
    assert rest[|rest| - 1] == msg[|msg| - 1];
    StripEmptyIff(rest);
  }

  /** A non-empty stripped string ends in a character that is not blank. */
  lemma StrippedEnd(s: string)
    requires Strip(s) != []
    ensures !IsSpace(Strip(s)[|Strip(s)| - 1])
  {
  }

  /** Routing of a stripped message (empty, or ending in a visible
      character): "/task " is tried first, then "/status ", then
      "/taskwait ", then exactly "/health"; anything else gets the help
      text. A "/status " message asks for the leftmost job id in it, or
      fails as `extract_job_id` does. The empty-prompt errors cannot happen, and a "/taskwait "
      message is not taken for "/task " although it is checked after it. */
  lemma RouteSpec(msg: string)
    requires msg == [] || !IsSpace(msg[|msg| - 1])
    ensures StartsWith(msg, "/task ") ==> Route(msg) == Ok(Task(Strip(msg[5..]))) && Strip(msg[5..]) != []
    ensures StartsWith(msg, "/status ") ==>
              (ExtractJobId(msg).Ok? ==> Route(msg) == Ok(Status(ExtractJobId(msg).value)))
              && (ExtractJobId(msg).Err? ==> Route(msg) == Err(ExtractJobId(msg).error))
    ensures StartsWith(msg, "/taskwait ") ==> Route(msg) == Ok(TaskWait(Strip(msg[9..]))) && Strip(msg[9..]) != []
    ensures !StartsWith(msg, "/task ") && !StartsWith(msg, "/status ") && !StartsWith(msg, "/taskwait ") ==>
              (Route(msg) == Ok(Health) <==> msg == "/health") && (Route(msg) == Ok(Help) <==> msg != "/health")
    ensures Route(msg) != Err(TaskUsage) && Route(msg) != Err(TaskWaitUsage)
  {
    if StartsWith(msg, "/task ") {
      RestNotBlank(msg, 5);
    } else if StartsWith(msg, "/status ") {
      assert NoJobId[0] != TaskUsage[0] && NoJobId[0] != TaskWaitUsage[0];
    } else if StartsWith(msg, "/taskwait ") {
      RestNotBlank(msg, 9);
    }
    if StartsWith(msg, "/taskwait ") {
      TaskWaitPrefix(msg);
    }
  }

  /** A "/taskwait " message starts with neither "/task " nor "/status ". */
  lemma TaskWaitPrefix(msg: string)
    requires StartsWith(msg, "/taskwait ")
    ensures !StartsWith(msg, "/task ") && !StartsWith(msg, "/status ")
  {
    PrefixChar(msg, "/taskwait ", 1);
    PrefixChar(msg, "/taskwait ", 5);
  }

  /** `handle_command` routes the stripped message as `RouteSpec` says. */
  lemma DispatchSpec(message: string)
    ensures var msg := Strip(message);
      && (StartsWith(msg, "/task ") ==> Dispatch(message) == Ok(Task(Strip(msg[5..]))) && Strip(msg[5..]) != [])
      && (StartsWith(msg, "/status ") ==>
            (ExtractJobId(msg).Ok? ==> Dispatch(message) == Ok(Status(ExtractJobId(msg).value)))
            && (ExtractJobId(msg).Err? ==> Dispatch(message) == Err(ExtractJobId(msg).error)))
      && (StartsWith(msg, "/taskwait ") ==> Dispatch(message) == Ok(TaskWait(Strip(msg[9..]))) && Strip(msg[9..]) != [])
      && (!StartsWith(msg, "/task ") && !StartsWith(msg, "/status ") && !StartsWith(msg, "/taskwait ") ==>
            (Dispatch(message) == Ok(Health) <==> msg == "/health")
            && (Dispatch(message) == Ok(Help) <==> msg != "/health"))
      && Dispatch(message) != Err(TaskUsage) && Dispatch(message) != Err(TaskWaitUsage)
  {
    if Strip(message) != [] {
      StrippedEnd(message);
    }
    RouteSpec(Strip(message));
  }

  /** The bridge's answers to the calls a command makes; an `Err` is a call
      that raised. */
  datatype Answers = Answers(created: Result<Json.Object>, job: Result<Json.Object>,
                             polls: seq<Json.Object>, late: Result<Json.Object>,
                             health: Result<Json.Object>)

  const HelpText: string := "지원 명령\n- /task <프롬프트>\n- /status <job_id>\n- /taskwait <프롬프트>\n- /health"

  function CreatedId(created: Json.Object): string {
    Json.PyStr(Json.Get(created, "job_id", Json.Str("")))
  }

  /** The reply `handle_command` returns, or the error it raises. */
  function Reply(message: string, a: Answers): Result<string> {
    match Dispatch(message)
    case Err(e) => Err(e)
    case Ok(cmd) => Answer(cmd, a)
  }

  function TaskReply(id: string): string {
    "작업 접수 완료\n- job_id: `" + id + "`\n- 상태확인: `/status " + id + "`"
  }

  function WaitReply(id: string, text: string): string {
    "동기 실행 결과 (job_id `" + id + "`)\n" + text
  }

  function HealthReply(h: Json.Object): string {
    "브리지 상태\n- ok: `" + Json.PyStr(Json.Get(h, "ok", Json.Null)) + "`\n- queued: `"
    + Json.PyStr(Json.Get(h, "queued", Json.Null)) + "`\n- running: `"
    + Json.PyStr(Json.Get(h, "running", Json.Null)) + "`\n- time: `"
    + Json.PyStr(Json.Get(h, "time", Json.Null)) + "`"
  }

  /** The reply to a routed command, given the bridge's answers. */
  function Answer(cmd: Command, a: Answers): Result<string> {
    match cmd
    case Task(_) =>
      if a.created.Err? then Err(a.created.error) else Ok(TaskReply(CreatedId(a.created.value)))
    case Status(_) =>
      if a.job.Err? then Err(a.job.error) else JobStatusText(a.job.value)
    case TaskWait(_) =>
      if a.created.Err? then Err(a.created.error)
      else if WaitResult(a.polls, a.late).Err? then Err(WaitResult(a.polls, a.late).error)
      else if JobStatusText(WaitResult(a.polls, a.late).value).Err? then JobStatusText(WaitResult(a.polls, a.late).value)
      else Ok(WaitReply(CreatedId(a.created.value), JobStatusText(WaitResult(a.polls, a.late).value).value))
    case Health =>
      if a.health.Err? then Err(a.health.error) else Ok(HealthReply(a.health.value))
    case Help => Ok(HelpText)
  }

  /** What each command answers. A message the router does not know gets
      the help text whatever the bridge would say; `/task` answers with the
      created job's id, `/health` with the bridge's health fields; `/status` shows the
      record the bridge returns; `/taskwait` shows, under the new job's id,
      the record the wait ends with; a reply fails only when the message is
      malformed, a bridge call it needs raises, or the record cannot be
      shown. With well-formed bridge records and no failing call, every
      recognised command gets a reply. */
  lemma ReplySpec(message: string, a: Answers)
    ensures Dispatch(message).Err? ==> Reply(message, a) == Err(Dispatch(message).error)
    ensures Dispatch(message) == Ok(Help) ==> Reply(message, a) == Ok(HelpText)
    ensures Dispatch(message).Ok? && Dispatch(message).value.Task? && a.created.Ok? ==>
              Reply(message, a) == Ok(TaskReply(CreatedId(a.created.value)))
    ensures Dispatch(message) == Ok(Health) && a.health.Ok? ==>
              Reply(message, a) == Ok(HealthReply(a.health.value))
    ensures Dispatch(message).Ok? && Dispatch(message).value.Status? && a.job.Ok? ==>
              Reply(message, a) == JobStatusText(a.job.value)
    ensures Dispatch(message).Ok? && Dispatch(message).value.TaskWait? && a.created.Ok?
            && WaitResult(a.polls, a.late).Ok? && BridgeRecord(WaitResult(a.polls, a.late).value) ==>
              Reply(message, a) == Ok(WaitReply(CreatedId(a.created.value), JobStatusText(WaitResult(a.polls, a.late).value).value))
    ensures Dispatch(message).Ok? && WellAnswered(a) ==> Reply(message, a).Ok?
  {
    if Dispatch(message).Ok? {
      var cmd := Dispatch(message).value;
      if cmd.TaskWait? && WaitResult(a.polls, a.late).Ok? && BridgeRecord(WaitResult(a.polls, a.late).value) {
        JobStatusTextSpec(WaitResult(a.polls, a.late).value);
      }
      if WellAnswered(a) {
        AnswerOk(cmd, a);
      }
    }
  }

  /** No bridge call raises and every record is as the bridge sends it. */
  predicate WellAnswered(a: Answers) {
    && a.created.Ok? && a.job.Ok? && a.late.Ok? && a.health.Ok?
    && BridgeRecord(a.job.value) && BridgeRecord(a.late.value)
    && (forall k :: 0 <= k < |a.polls| ==> BridgeRecord(a.polls[k]))
  }

  /** With well-formed answers every command gets a reply. */
  lemma AnswerOk(cmd: Command, a: Answers)
    requires WellAnswered(a)
    ensures Answer(cmd, a).Ok?
  {
    match cmd
    case Status(_) =>
      JobStatusTextSpec(a.job.value);
    case TaskWait(_) =>
      var w := WaitResult(a.polls, a.late);
      WaitFromPolls(a.polls, a.late);
      if w != a.late {
        var k :| 0 <= k < |a.polls| && w == Ok(a.polls[k]);
      }
      JobStatusTextSpec(w.value);
    case _ =>
  }

  /** The record a wait ends with is one of the polls or the late one. */
  lemma {:induction false} WaitFromPolls(polls: seq<Json.Object>, late: Result<Json.Object>)
    ensures WaitResult(polls, late) == late || exists k :: 0 <= k < |polls| && WaitResult(polls, late) == Ok(polls[k])
  {
    if polls != [] && !IsFinished(polls[0]) && |polls| > 1 {
      WaitFromPolls(polls[1..], late);
      if WaitResult(polls, late) != late {
        var k :| 0 <= k < |polls[1..]| && WaitResult(polls, late) == Ok(polls[1..][k]);
        assert WaitResult(polls, late) == Ok(polls[k + 1]);
      }
    } else if polls != [] && WaitResult(polls, late) != late {
      assert WaitResult(polls, late) == Ok(polls[0]);
    }
  }
}
