/**
 * One turn of the HTTP bridge's worker thread (`start_worker` in
 * scripts/codex_http_bridge.py): take the next id off the queue, mark the job
 * running, run it, and record how it ended. The clock readings and the
 * process outcome are inputs.
 */
module Worker {
  import opened Wrappers
  import opened Text
  import opened JobStore
  import CodexRunner

  /** The second `update` of a turn: what the job's record receives once the
      runner has returned or raised. */
  function FinishUpdates(o: CodexRunner.Outcome, finishedAt: string, maxOutputChars: int): seq<FieldUpdate> {
    match o
    case Completed(code, out, err) =>
      [SetStatus(if code == 0 then Succeeded else Failed), SetReturnCode(code),
       SetStdout(TrimText(out, maxOutputChars)), SetStderr(TrimText(err, maxOutputChars)),
       SetFinishedAt(finishedAt)]
    case Raised(message) =>
      [SetStatus(Failed), SetError(message), SetFinishedAt(finishedAt)]
  }

  /** The first `update` of a turn. */
  function StartUpdates(startedAt: string): seq<FieldUpdate> {
    [SetStatus(Running), SetStartedAt(startedAt)]
  }

  /** The inputs of one turn from outside the store: the runner's
      configuration, the two clock readings and what the process did. */
  datatype Env = Env(command: string, mode: string, startedAt: string, finishedAt: string,
                     proc: CodexRunner.Outcome)

  /** The record a job ends its turn with. */
  function Finished(j: Job, e: Env, maxOutputChars: int): Job {
    var running := ApplyAll(j, StartUpdates(e.startedAt));
    ApplyAll(running, FinishUpdates(CodexRunner.Run(e.command, e.mode, j.prompt, e.proc), e.finishedAt, maxOutputChars))
  }

  /** One turn: with an empty queue the worker waits and nothing changes; an
      id without a record is dropped; otherwise the job is run to its end. */
  function StepNext(s: StoreState, e: Env, maxOutputChars: int): StoreState {
    if s.queue == [] then s
    else
      var id := s.queue[0];
      if id !in s.jobs then StoreState(s.jobs, s.queue[1..])
      else StoreState(s.jobs[id := Finished(s.jobs[id], e, maxOutputChars)], s.queue[1..])
  }

  /** The record after the first `update`. */
  lemma StartedRecord(j: Job, startedAt: string)
    ensures ApplyAll(j, StartUpdates(startedAt)) == j.(status := Running, startedAt := Some(startedAt))
  {
    var start := StartUpdates(startedAt);
    ApplyAllCons(j, start[0], [start[1]]);
    ApplyAllCons(Apply(j, start[0]), start[1], []);
    assert start == [start[0]] + [start[1]] && [start[1]] == [start[1]] + [];
  }

  /** The record after the second `update` when the process ran. */
  lemma CompletedRecord(r: Job, code: int, out: string, err: string, finishedAt: string, maxOutputChars: int)
    ensures ApplyAll(r, FinishUpdates(CodexRunner.Completed(code, out, err), finishedAt, maxOutputChars))
         == r.(status := if code == 0 then Succeeded else Failed, returnCode := Some(code),
               stdout := TrimText(out, maxOutputChars), stderr := TrimText(err, maxOutputChars),
               finishedAt := Some(finishedAt))
  {
    var us := FinishUpdates(CodexRunner.Completed(code, out, err), finishedAt, maxOutputChars);
    var r1 := Apply(r, us[0]);
    var r2 := Apply(r1, us[1]);
    var r3 := Apply(r2, us[2]);
    var r4 := Apply(r3, us[3]);
    ApplyAllCons(r, us[0], us[1..]);
    ApplyAllCons(r1, us[1], us[2..]);
    ApplyAllCons(r2, us[2], us[3..]);
    ApplyAllCons(r3, us[3], us[4..]);
    ApplyAllCons(r4, us[4], []);
    assert us == [us[0]] + us[1..] && us[1..] == [us[1]] + us[2..] && us[2..] == [us[2]] + us[3..];
    assert us[3..] == [us[3]] + us[4..] && us[4..] == [us[4]] + [];
  }

  /** The record after the second `update` when the runner raised. */
  lemma RaisedRecord(r: Job, message: string, finishedAt: string, maxOutputChars: int)
    ensures ApplyAll(r, FinishUpdates(CodexRunner.Raised(message), finishedAt, maxOutputChars))
         == r.(status := Failed, error := Some(message), finishedAt := Some(finishedAt))
  {
    var us := FinishUpdates(CodexRunner.Raised(message), finishedAt, maxOutputChars);
    var r1 := Apply(r, us[0]);
    var r2 := Apply(r1, us[1]);
    ApplyAllCons(r, us[0], us[1..]);
    ApplyAllCons(r1, us[1], us[2..]);
    ApplyAllCons(r2, us[2], []);
    assert us == [us[0]] + us[1..] && us[1..] == [us[1]] + us[2..] && us[2..] == [us[2]] + [];
  }

  /** How a job ends: succeeded exactly when the process ran and exited 0;
      an exit code and trimmed output exactly when it ran; an error message
      exactly when the runner raised; both timestamps set; id, prompt and
      creation time untouched. */
  lemma FinishedSpec(j: Job, e: Env, maxOutputChars: int)
    requires j.status == Queued && WellFormed(j)
    ensures var f := Finished(j, e, maxOutputChars);
      var o := CodexRunner.Run(e.command, e.mode, j.prompt, e.proc);
      && f.id == j.id && f.prompt == j.prompt && f.createdAt == j.createdAt
      && f.startedAt == Some(e.startedAt) && f.finishedAt == Some(e.finishedAt)
      && IsTerminal(f.status)
      && (f.status == Succeeded <==> (o.Completed? && o.code == 0))
      && (o.Completed? ==> f.returnCode == Some(o.code) && f.error.None?
                           && f.stdout == TrimText(o.out, maxOutputChars)
                           && f.stderr == TrimText(o.err, maxOutputChars))
      && (o.Raised? ==> f.returnCode.None? && f.error == Some(o.message)
                        && f.stdout == j.stdout && f.stderr == j.stderr)
      && WellFormed(f)
  {
    StartedRecord(j, e.startedAt);
    var running := ApplyAll(j, StartUpdates(e.startedAt));
    match CodexRunner.Run(e.command, e.mode, j.prompt, e.proc)
    case Completed(code, out, err) =>
      CompletedRecord(running, code, out, err, e.finishedAt, maxOutputChars);
    case Raised(message) =>
      RaisedRecord(running, message, e.finishedAt, maxOutputChars);
  }

  /** A turn keeps the store valid. */
  lemma StepPreservesValid(s: StoreState, e: Env, maxOutputChars: int)
    requires Valid(s)
    ensures Valid(StepNext(s, e, maxOutputChars))
  {
    if s.queue != [] {
      var id := s.queue[0];
      FinishedSpec(s.jobs[id], e, maxOutputChars);
      var s' := StepNext(s, e, maxOutputChars);
      forall i | 0 <= i < |s'.queue|
        ensures s'.queue[i] in s'.jobs && s'.jobs[s'.queue[i]].status == Queued
      {
        assert s'.queue[i] == s.queue[i + 1];
      }
      forall other | other in s'.jobs && s'.jobs[other].status == Queued
        ensures other in s'.queue
      {
        var i :| 0 <= i < |s.queue| && s.queue[i] == other;
        assert s'.queue[i - 1] == other;
      }
    }
  }

  /** Statuses only move forward: a turn never sends a job back in its
      lifecycle, the job it takes ends in a terminal status, every other
      record is left as it was, and a record that has ended is never
      touched again. */
  lemma StepNeverRegresses(s: StoreState, e: Env, maxOutputChars: int)
    requires Valid(s)
    ensures var s' := StepNext(s, e, maxOutputChars);
      && s'.jobs.Keys == s.jobs.Keys
      && (forall id :: id in s.jobs ==> Rank(s'.jobs[id].status) >= Rank(s.jobs[id].status))
      && (s.queue != [] ==> IsTerminal(s'.jobs[s.queue[0]].status))
      && (forall id :: id in s.jobs && (s.queue == [] || id != s.queue[0]) ==> s'.jobs[id] == s.jobs[id])
      && (forall id :: id in s.jobs && IsTerminal(s.jobs[id].status) ==> s'.jobs[id] == s.jobs[id])
  {
    if s.queue != [] {
      FinishedSpec(s.jobs[s.queue[0]], e, maxOutputChars);
    }
  }

  /** A turn takes the OLDEST waiting job: with jobs already waiting,
      submitting a job and then taking a turn is the same as taking the turn
      first and then submitting. */
  lemma StepIsFifo(s: StoreState, id: string, prompt: string, now: string, e: Env, maxOutputChars: int)
    requires Valid(s) && id !in s.jobs && s.queue != []
    ensures StepNext(CreateNext(s, id, prompt, now), e, maxOutputChars)
         == CreateNext(StepNext(s, e, maxOutputChars), id, prompt, now)
  {
    var c := CreateNext(s, id, prompt, now);
    var first := s.queue[0];
    assert c.queue[0] == first && c.queue[1..] == s.queue[1..] + [id];
    assert first in s.jobs && first != id;
    assert c.jobs[first] == s.jobs[first];
    var f := Finished(s.jobs[first], e, maxOutputChars);
    assert c.jobs[first := f] == s.jobs[first := f][id := NewJob(id, prompt, now)];
  }

  /** With nothing else waiting, the next turn runs the job just submitted. */
  lemma StepRunsLoneJob(s: StoreState, id: string, prompt: string, now: string, e: Env, maxOutputChars: int)
    requires s.queue == []
    ensures StepNext(CreateNext(s, id, prompt, now), e, maxOutputChars)
         == StoreState(s.jobs[id := Finished(NewJob(id, prompt, now), e, maxOutputChars)], [])
  {
    assert CreateNext(s, id, prompt, now).queue == [id];
  }

  /** A turn that takes a job moves it from the queued count to neither:
      one fewer queued, still none running. */
  lemma StepMetrics(s: StoreState, e: Env, maxOutputChars: int)
    requires Valid(s) && s.queue != []
    ensures MetricsOf(s.jobs).queued >= 1
    ensures MetricsOf(StepNext(s, e, maxOutputChars).jobs)
         == Metrics(MetricsOf(s.jobs).queued - 1, 0)
  {
    var id := s.queue[0];
    var f := Finished(s.jobs[id], e, maxOutputChars);
    FinishedSpec(s.jobs[id], e, maxOutputChars);
    WithStatusReplace(s.jobs, id, f, Queued);
    WithStatusReplace(s.jobs, id, f, Running);
    assert id in WithStatus(s.jobs, Queued);
    assert WithStatus(s.jobs, Running) == {};
  }

  /** `loop` for one item: the blocking `queue.get` (a turn with an empty
      queue waits, which the model shows as no change), the lookup, and the
      two `update` calls around the runner. */
  method Step(store: Store, e: Env) returns (ran: bool)
    modifies store
    ensures ran <==> old(store.queue) != [] && old(store.queue)[0] in old(store.jobs)
    ensures store.State() == StepNext(old(store.State()), e, store.maxOutputChars)
  {
    ran := false;
    if store.queue == [] {
      return;
    }
    var id := store.queue[0];
    store.queue := store.queue[1..];
    var job := store.Lookup(id);
    if job.None? {
      return;
    }
    var _ := store.Update(id, StartUpdates(e.startedAt));
    var outcome := CodexRunner.Run(e.command, e.mode, job.value.prompt, e.proc);
    var _ := store.Update(id, FinishUpdates(outcome, e.finishedAt, store.maxOutputChars));
    ran := true;
  }
}
