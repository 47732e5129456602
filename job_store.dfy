/**
 * The HTTP bridge's job records and their store (`Job`, `JobStore` in
 * scripts/codex_http_bridge.py): a dictionary from id to record plus a FIFO
 * of ids waiting for the worker. The store is modelled single-threaded; the
 * lock and the blocking queue are plumbing around these updates.
 */
module JobStore {
  import opened Wrappers
  import Json

  // ---------------------------------------------------------------------------
  // Job records

  datatype Status = Queued | Running | Succeeded | Failed

  /** The status strings the bridge stores and serves. */
  function StatusName(s: Status): string {
    match s
    case Queued => "queued"
    case Running => "running"
    case Succeeded => "succeeded"
    case Failed => "failed"
  }

  function StatusOfName(name: string): (r: Option<Status>)
    ensures r.Some? ==> StatusName(r.value) == name
  {
    if name == "queued" then Some(Queued)
    else if name == "running" then Some(Running)
    else if name == "succeeded" then Some(Succeeded)
    else if name == "failed" then Some(Failed)
    else None
  }

  /** Position in the lifecycle `queued -> running -> succeeded | failed`. */
  function Rank(s: Status): nat {
    match s
    case Queued => 0
    case Running => 1
    case _ => 2
  }

  predicate IsTerminal(s: Status) {
    s == Succeeded || s == Failed
  }

  datatype Job = Job(
    id: string,
    prompt: string,
    status: Status,
    createdAt: string,
    startedAt: Option<string>,
    finishedAt: Option<string>,
    returnCode: Option<int>,
    stdout: string,
    stderr: string,
    error: Option<string>)

  /** `Job(id=..., prompt=...)` with the dataclass defaults; `createdAt` is the
      clock reading taken when the record is built. */
  function NewJob(id: string, prompt: string, createdAt: string): Job {
    Job(id, prompt, Queued, createdAt, None, None, None, "", "", None)
  }

  /** The fields `update` may assign (every field but id, prompt, created_at). */
  datatype Field = StatusField | StartedAtField | FinishedAtField | ReturnCodeField
                 | StdoutField | StderrField | ErrorField

  /** One keyword argument of `update`. */
  datatype FieldUpdate =
    | SetStatus(status: Status)
    | SetStartedAt(startedAt: string)
    | SetFinishedAt(finishedAt: string)
    | SetReturnCode(returnCode: int)
    | SetStdout(stdout: string)
    | SetStderr(stderr: string)
    | SetError(error: string)

  function FieldOf(u: FieldUpdate): Field {
    match u
    case SetStatus(_) => StatusField
    case SetStartedAt(_) => StartedAtField
    case SetFinishedAt(_) => FinishedAtField
    case SetReturnCode(_) => ReturnCodeField
    case SetStdout(_) => StdoutField
    case SetStderr(_) => StderrField
    case SetError(_) => ErrorField
  }

  /** A field's value, whatever its type. */
  datatype FieldValue = StatusValue(s: Status) | TextValue(t: string)
                      | OptTextValue(o: Option<string>) | OptIntValue(n: Option<int>)

  function Get(j: Job, f: Field): FieldValue {
    match f
    case StatusField => StatusValue(j.status)
    case StartedAtField => OptTextValue(j.startedAt)
    case FinishedAtField => OptTextValue(j.finishedAt)
    case ReturnCodeField => OptIntValue(j.returnCode)
    case StdoutField => TextValue(j.stdout)
    case StderrField => TextValue(j.stderr)
    case ErrorField => OptTextValue(j.error)
  }

  /** The value an update writes, as `Get` would read it back. */
  function ValueOf(u: FieldUpdate): FieldValue {
    match u
    case SetStatus(s) => StatusValue(s)
    case SetStartedAt(t) => OptTextValue(Some(t))
    case SetFinishedAt(t) => OptTextValue(Some(t))
    case SetReturnCode(c) => OptIntValue(Some(c))
    case SetStdout(t) => TextValue(t)
    case SetStderr(t) => TextValue(t)
    case SetError(e) => OptTextValue(Some(e))
  }

  /** `setattr(job, k, v)` for one keyword argument. */
  function Apply(j: Job, u: FieldUpdate): Job {
    match u
    case SetStatus(s) => j.(status := s)
    case SetStartedAt(t) => j.(startedAt := Some(t))
    case SetFinishedAt(t) => j.(finishedAt := Some(t))
    case SetReturnCode(c) => j.(returnCode := Some(c))
    case SetStdout(t) => j.(stdout := t)
    case SetStderr(t) => j.(stderr := t)
    case SetError(e) => j.(error := Some(e))
  }

  /** The `setattr` loop of `update`: the arguments applied in order. */
  function ApplyAll(j: Job, us: seq<FieldUpdate>): Job
    decreases |us|
  {
    if us == [] then j else ApplyAll(Apply(j, us[0]), us[1..])
  }

  lemma ApplyAllCons(j: Job, u: FieldUpdate, us: seq<FieldUpdate>)
    ensures ApplyAll(j, [u] + us) == ApplyAll(Apply(j, u), us)
  {
    assert ([u] + us)[1..] == us;
  }

  lemma {:induction false} ApplyAllSnoc(j: Job, us: seq<FieldUpdate>, u: FieldUpdate)
    ensures ApplyAll(j, us + [u]) == Apply(ApplyAll(j, us), u)
    decreases |us|
  {
    if us == [] {
      assert us + [u] == [u];
    } else {
      assert (us + [u])[1..] == us[1..] + [u];
      ApplyAllSnoc(Apply(j, us[0]), us[1..], u);
    }
  }

  /** `update` leaves every field it is not given as it was, and never touches
      the id, the prompt or the creation time. */
  lemma {:induction false} UpdateKeepsUnnamed(j: Job, us: seq<FieldUpdate>, f: Field)
    requires forall k :: 0 <= k < |us| ==> FieldOf(us[k]) != f
    ensures Get(ApplyAll(j, us), f) == Get(j, f)
    ensures ApplyAll(j, us).id == j.id && ApplyAll(j, us).prompt == j.prompt
    ensures ApplyAll(j, us).createdAt == j.createdAt
    decreases |us|
  {
    if us != [] {
      UpdateKeepsUnnamed(Apply(j, us[0]), us[1..], f);
    }
  }

  /** A field named by `update` ends up with the value of its last mention. */
  lemma {:induction false} UpdateSetsNamed(j: Job, us: seq<FieldUpdate>, k: nat)
    requires k < |us|
    requires forall k' :: k < k' < |us| ==> FieldOf(us[k']) != FieldOf(us[k])
    ensures Get(ApplyAll(j, us), FieldOf(us[k])) == ValueOf(us[k])
    decreases |us|
  {
    if k > 0 {
      UpdateSetsNamed(Apply(j, us[0]), us[1..], k - 1);
    } else if |us| > 1 {
      UpdateKeepsUnnamed(Apply(j, us[0]), us[1..], FieldOf(us[0]));
    }
  }

  // ---------------------------------------------------------------------------
  // The store as a value, and the transitions its methods make

  datatype StoreState = StoreState(jobs: map<string, Job>, queue: seq<string>)

  /** `create`: register a fresh queued record and append its id. */
  function CreateNext(s: StoreState, id: string, prompt: string, now: string): StoreState {
    StoreState(s.jobs[id := NewJob(id, prompt, now)], s.queue + [id])
  }

  /** `update`: merge the arguments into the named record; an unknown id is a
      `KeyError`. */
  function UpdateNext(s: StoreState, id: string, us: seq<FieldUpdate>): Result<StoreState> {
    if id in s.jobs then Ok(StoreState(s.jobs[id := ApplyAll(s.jobs[id], us)], s.queue))
    else Err("KeyError: " + id)
  }

  /** A record as the lifecycle allows it: timestamps and results present
      exactly in the statuses that set them. */
  ghost predicate WellFormed(j: Job) {
    match j.status
    case Queued =>
      j.startedAt.None? && j.finishedAt.None? && j.returnCode.None? && j.error.None?
    case Running =>
      j.startedAt.Some? && j.finishedAt.None? && j.returnCode.None? && j.error.None?
    case Succeeded =>
      j.startedAt.Some? && j.finishedAt.Some? && j.returnCode == Some(0) && j.error.None?
    case Failed =>
      j.startedAt.Some? && j.finishedAt.Some?
      && ((j.returnCode.Some? && j.returnCode.value != 0 && j.error.None?)
          || (j.returnCode.None? && j.error.Some?))
  }

  /** The store between two worker steps: records are filed under their own
      ids and well formed; the queue holds, once each and in submission order,
      exactly the ids of the queued records; nothing is running. */
  ghost predicate Valid(s: StoreState) {
    && (forall id :: id in s.jobs ==> s.jobs[id].id == id && WellFormed(s.jobs[id]))
    && (forall i, k :: 0 <= i < k < |s.queue| ==> s.queue[i] != s.queue[k])
    && (forall i :: 0 <= i < |s.queue| ==> s.queue[i] in s.jobs && s.jobs[s.queue[i]].status == Queued)
    && (forall id :: id in s.jobs && s.jobs[id].status == Queued ==> id in s.queue)
    && (forall id :: id in s.jobs ==> s.jobs[id].status != Running)
  }

  /** A fresh record starts queued with nothing else set, at the tail of the
      queue, and no other record changes. */
  lemma CreateSpec(s: StoreState, id: string, prompt: string, now: string)
    requires id !in s.jobs
    ensures var s' := CreateNext(s, id, prompt, now);
      && s'.jobs[id].status == Queued && s'.jobs[id].startedAt.None? && s'.jobs[id].finishedAt.None?
      && s'.jobs[id].returnCode.None? && s'.jobs[id].error.None?
      && s'.jobs[id].stdout == "" && s'.jobs[id].stderr == ""
      && s'.queue[|s'.queue| - 1] == id && s'.queue[..|s.queue|] == s.queue
      && s'.jobs.Keys == s.jobs.Keys + {id}
      && forall other :: other in s.jobs ==> s'.jobs[other] == s.jobs[other]
  {
  }

  lemma CreatePreservesValid(s: StoreState, id: string, prompt: string, now: string)
    requires Valid(s) && id !in s.jobs
    ensures Valid(CreateNext(s, id, prompt, now))
  {
    var s' := CreateNext(s, id, prompt, now);
    forall i, k | 0 <= i < k < |s'.queue| ensures s'.queue[i] != s'.queue[k] {
      if k == |s.queue| {
        assert s'.queue[i] == s.queue[i] && s.queue[i] in s.jobs;
      }
    }
  }

  /** An update leaves the queue and every other record as they were. */
  lemma UpdateSpec(s: StoreState, id: string, us: seq<FieldUpdate>)
    ensures UpdateNext(s, id, us).Ok? <==> id in s.jobs
    ensures UpdateNext(s, id, us).Ok? ==>
      var s' := UpdateNext(s, id, us).value;
      && s'.queue == s.queue && s'.jobs.Keys == s.jobs.Keys
      && forall other :: other in s.jobs && other != id ==> s'.jobs[other] == s.jobs[other]
  {
  }

  // ---------------------------------------------------------------------------
  // metrics

  /** The ids of the records in a given status. */
  function WithStatus(jobs: map<string, Job>, st: Status): set<string> {
    set id | id in jobs && jobs[id].status == st
  }

  datatype Metrics = Metrics(queued: nat, running: nat)

  /** `metrics`: how many records are queued and how many are running. */
  function MetricsOf(jobs: map<string, Job>): (m: Metrics)
    ensures m.queued + m.running <= |jobs|
  {
    var q := WithStatus(jobs, Queued);
    var r := WithStatus(jobs, Running);
    assert q !! r;
    SubsetCard(q + r, jobs.Keys);
    Metrics(|q|, |r|)
  }

  lemma SubsetCard(a: set<string>, b: set<string>)
    requires a <= b
    ensures |a| <= |b|
  {
    assert b == a + (b - a);
  }

  /** Replacing one record moves it from its old status's count to its new
      one's and leaves every other count alone. */
  lemma WithStatusReplace(jobs: map<string, Job>, id: string, j: Job, st: Status)
    requires id in jobs
    ensures |WithStatus(jobs[id := j], st)|
         == |WithStatus(jobs, st)| - (if jobs[id].status == st then 1 else 0) + (if j.status == st then 1 else 0)
  {
    CountSplit(jobs, id, st);
    CountSplit(jobs[id := j], id, st);
    OthersReplace(jobs, id, j, st);
  }

  /** The ids other than `id` whose records are in status `st`. */
  function Others(jobs: map<string, Job>, id: string, st: Status): set<string> {
    set other | other in jobs && other != id && jobs[other].status == st
  }

  lemma CountSplit(jobs: map<string, Job>, id: string, st: Status)
    requires id in jobs
    ensures |WithStatus(jobs, st)| == |Others(jobs, id, st)| + (if jobs[id].status == st then 1 else 0)
  {
    var rest := Others(jobs, id, st);
    if jobs[id].status == st {
      assert WithStatus(jobs, st) == rest + {id};
    } else {
      assert WithStatus(jobs, st) == rest;
    }
  }

  lemma OthersReplace(jobs: map<string, Job>, id: string, j: Job, st: Status)
    ensures Others(jobs[id := j], id, st) == Others(jobs, id, st)
  {
  }

  /** Creating a job adds exactly one to the queued count. */
  lemma CreateMetrics(s: StoreState, id: string, prompt: string, now: string)
    requires id !in s.jobs
    ensures MetricsOf(CreateNext(s, id, prompt, now).jobs)
         == Metrics(MetricsOf(s.jobs).queued + 1, MetricsOf(s.jobs).running)
  {
    var jobs' := CreateNext(s, id, prompt, now).jobs;
    assert WithStatus(jobs', Queued) == WithStatus(s.jobs, Queued) + {id};
    assert WithStatus(jobs', Running) == WithStatus(s.jobs, Running);
  }

  // ---------------------------------------------------------------------------
  // the snapshot served by GET /jobs/<id>

  /** `to_dict`: every field of the record but the prompt. */
  function ToDict(j: Job): (d: Json.Object)
    ensures d.Keys == {"id", "status", "created_at", "started_at", "finished_at",
                       "return_code", "stdout", "stderr", "error"}
    ensures "prompt" !in d
  {
    map[
      "id" := Json.Str(j.id),
      "status" := Json.Str(StatusName(j.status)),
      "created_at" := Json.Str(j.createdAt),
      "started_at" := Json.OfOptString(j.startedAt),
      "finished_at" := Json.OfOptString(j.finishedAt),
      "return_code" := Json.OfOptInt(j.returnCode),
      "stdout" := Json.Str(j.stdout),
      "stderr" := Json.Str(j.stderr),
      "error" := Json.OfOptString(j.error)
    ]
  }

  /** Reads a snapshot back into a record, given the prompt it leaves out. */
  function FromDict(d: Json.Object, prompt: string): Option<Job> {
    if "id" in d && d["id"].Str? && "status" in d && d["status"].Str?
       && StatusOfName(d["status"].s).Some? && "created_at" in d && d["created_at"].Str?
       && "started_at" in d && Json.ToOptString(d["started_at"]).Some?
       && "finished_at" in d && Json.ToOptString(d["finished_at"]).Some?
       && "return_code" in d && Json.ToOptInt(d["return_code"]).Some?
       && "stdout" in d && d["stdout"].Str? && "stderr" in d && d["stderr"].Str?
       && "error" in d && Json.ToOptString(d["error"]).Some?
    then Some(Job(d["id"].s, prompt, StatusOfName(d["status"].s).value, d["created_at"].s,
                  Json.ToOptString(d["started_at"]).value, Json.ToOptString(d["finished_at"]).value,
                  Json.ToOptInt(d["return_code"]).value, d["stdout"].s, d["stderr"].s,
                  Json.ToOptString(d["error"]).value))
    else None
  }

  /** The snapshot loses nothing but the prompt. */
  lemma DictRoundTrip(j: Job)
    ensures FromDict(ToDict(j), j.prompt) == Some(j)
  {
    var d := ToDict(j);
    assert StatusOfName(StatusName(j.status)) == Some(j.status) by {
      match j.status
      case Queued =>
      case Running =>
      case Succeeded =>
      case Failed =>
    }
  }

  // ---------------------------------------------------------------------------
  // the store object

  class Store {
    var jobs: map<string, Job>
    var queue: seq<string>
    const maxOutputChars: int

    function State(): StoreState
      reads this
    {
      StoreState(jobs, queue)
    }

    constructor (maxOutputChars: int)
      ensures State() == StoreState(map[], []) && Valid(State())
      ensures this.maxOutputChars == maxOutputChars
    {
      jobs := map[];
      queue := [];
      this.maxOutputChars := maxOutputChars;
    }

    /** `create`; `id` is the fresh `uuid4` and `now` the clock reading. */
    method Create(id: string, prompt: string, now: string) returns (job: Job)
      requires id !in jobs
      modifies this
      ensures job == NewJob(id, prompt, now)
      ensures State() == CreateNext(old(State()), id, prompt, now)
    {
      job := NewJob(id, prompt, now);
      jobs := jobs[id := job];
      queue := queue + [id];
    }

    /** `get` */
    function Lookup(id: string): (r: Option<Job>)
      reads this
      ensures r.None? <==> id !in jobs
      ensures r.Some? ==> r.value == jobs[id]
    {
      if id in jobs then Some(jobs[id]) else None
    }

    /** `update`: the `setattr` loop over the keyword arguments. */
    method Update(id: string, us: seq<FieldUpdate>) returns (r: Result<()>)
      modifies this
      ensures r.Ok? <==> id in old(jobs)
      ensures r.Ok? ==> State() == UpdateNext(old(State()), id, us).value
      ensures r.Err? ==> State() == old(State())
    {
      if id !in jobs {
        return Err("KeyError: " + id);
      }
      var original := jobs[id];
      var job := original;
      var i := 0;
      while i < |us|
        invariant 0 <= i <= |us|
        invariant job == ApplyAll(original, us[..i])
        invariant jobs == old(jobs) && queue == old(queue)
      {
        assert us[..i + 1] == us[..i] + [us[i]];
        ApplyAllSnoc(original, us[..i], us[i]);
        job := Apply(job, us[i]);
        i := i + 1;
      }
      assert us[..|us|] == us;
      jobs := jobs[id := job];
      r := Ok(());
    }

    /** `metrics` */
    function Metrics(): (m: Metrics)
      reads this
      ensures m.queued == |WithStatus(jobs, Queued)| && m.running == |WithStatus(jobs, Running)|
      ensures m.queued + m.running <= |jobs|
    {
      MetricsOf(jobs)
    }
  }
}
