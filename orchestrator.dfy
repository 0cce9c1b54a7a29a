/**
 * The job registry of the API server: submitting a job fans it out into one
 * task per transcoding profile, and each task's background dispatch moves it
 * from `pending` through `processing` to `completed` or `failed`.
 */
module Orchestrator {

  import opened Wrappers
  import PosixPath

  datatype Status = Pending | Processing | Completed | Failed {

    predicate IsTerminal() {
      this == Completed || this == Failed
    }

    /** Position in the lifecycle pending -> processing -> completed | failed. */
    function Rank(): nat {
      match this
      case Pending => 0
      case Processing => 1
      case Completed => 2
      case Failed => 2
    }
  }

  /** One task record `{task_id, name, status, download_url?, error?}`. */
  datatype Task = Task(taskId: string, name: string, status: Status,
                       downloadUrl: Option<string>, error: Option<string>)

  /** One job record `{job_id, original_filename, tasks}`. */
  datatype Job = Job(jobId: string, originalFilename: string, tasks: map<string, Task>)

  /** A target profile: the task name and the resolution handed to the worker. */
  datatype Profile = Profile(name: string, resolution: string)

  /** The fixed fan-out table, in its iteration order. */
  const PROFILES: seq<Profile> := [Profile("480p", "854x480"), Profile("720p", "1280x720")]

  const UPLOAD_ROOT := "/media/uploads/"
  const PROCESSED_ROOT := "/media/processed/"
  const DOWNLOAD_ROOT := "/downloads/"

  /** The arguments of one scheduled background dispatch. */
  datatype Dispatch = Dispatch(jobId: string, taskId: string, inputPath: string,
                               outputPath: string, resolution: string)

  /**
   * What the blocking worker call hands back: a response with `success` set,
   * a response with `success` unset, or the exception it caught. `rendered`
   * is the value's `str()`.
   */
  datatype Outcome = Succeeded | Rejected(rendered: string) | Raised(rendered: string)

  // ---------------------------------------------------------------- derived strings

  function InputPath(jobId: string, filename: string): string {
    PosixPath.Join(UPLOAD_ROOT + jobId, filename)
  }

  function OutputFilename(filename: string, name: string): string {
    PosixPath.Stem(filename) + "_" + name + ".mp4"
  }

  function OutputPath(jobId: string, filename: string, name: string): string {
    PosixPath.Join(PROCESSED_ROOT + jobId, OutputFilename(filename, name))
  }

  function DownloadUrl(jobId: string, outputPath: string): string {
    DOWNLOAD_ROOT + jobId + "/" + PosixPath.Basename(outputPath)
  }

  /**
   * For an uploaded `base.ext` the output lands in the job's processed
   * directory as `base_<profile>.mp4`, and the download URL names that file.
   */
  lemma OutputNaming(jobId: string, base: string, ext: string, name: string)
    requires exists k :: 0 <= k < |base| && base[k] != '.'
    requires '/' !in base && '/' !in ext && '.' !in ext && '/' !in name
    ensures OutputFilename(base + "." + ext, name) == base + "_" + name + ".mp4"
    ensures OutputPath(jobId, base + "." + ext, name)
         == PosixPath.Join(PROCESSED_ROOT + jobId, base + "_" + name + ".mp4")
    ensures DownloadUrl(jobId, OutputPath(jobId, base + "." + ext, name))
         == DOWNLOAD_ROOT + jobId + "/" + base + "_" + name + ".mp4"
  {
    PosixPath.StemDropsExtension(base, ext);
    assert PosixPath.Stem(base + "." + ext) == base;
    var file := base + "_" + name + ".mp4";
    NoSeparator(base, name);
    PosixPath.BasenameOfJoin(PROCESSED_ROOT + jobId, file);
  }

  /**
   * Where the upload is written: a plain file name lands in the job's upload
   * directory and is that path's basename; an absolute one replaces the
   * directory altogether.
   */
  lemma InputPathSpec(jobId: string, filename: string)
    ensures PosixPath.IsAbsolute(filename) ==> InputPath(jobId, filename) == filename
    ensures filename != [] && '/' !in filename ==> PosixPath.Basename(InputPath(jobId, filename)) == filename
    ensures !PosixPath.IsAbsolute(filename) && jobId != [] && jobId[|jobId| - 1] != '/' ==>
      InputPath(jobId, filename) == UPLOAD_ROOT + jobId + "/" + filename
  {
    if filename != [] && '/' !in filename {
      PosixPath.BasenameOfJoin(UPLOAD_ROOT + jobId, filename);
    }
  }

  /**
   * For any upload name without a separator, the output lands in the job's
   * processed directory as `<stem>_<profile>.mp4`, and the download URL
   * `/downloads/<job>/<basename>` names that file.
   */
  lemma OutputPathSpec(jobId: string, filename: string, name: string)
    requires '/' !in filename && '/' !in name
    ensures PosixPath.Basename(OutputPath(jobId, filename, name)) == OutputFilename(filename, name)
    ensures jobId != [] && jobId[|jobId| - 1] != '/' ==>
      OutputPath(jobId, filename, name) == PROCESSED_ROOT + jobId + "/" + OutputFilename(filename, name)
    ensures DownloadUrl(jobId, OutputPath(jobId, filename, name)) == DOWNLOAD_ROOT + jobId + "/" + OutputFilename(filename, name)
  {
    var stem := PosixPath.Stem(filename);
    PosixPath.SplitExtSpec(filename);
    assert filename == stem + PosixPath.SplitExt(filename).1;
    assert '/' !in stem by {
      forall k | 0 <= k < |stem| ensures stem[k] != '/' { assert stem[k] == filename[k]; }
    }
    NoSeparator(stem, name);
    var file := OutputFilename(filename, name);
    assert file != [] && file[|file| - 1] == '4';
    PosixPath.BasenameOfJoin(PROCESSED_ROOT + jobId, file);
  }

  lemma NoSeparator(base: string, name: string)
    requires '/' !in base && '/' !in name
    ensures '/' !in base + "_" + name + ".mp4"
  {
    assert '/' !in "_";
    assert '/' !in ".mp4";
  }

  /** The two profiles of a job never write the same output file. */
  lemma DistinctOutputs(jobId: string, filename: string)
    ensures OutputPath(jobId, filename, PROFILES[0].name) != OutputPath(jobId, filename, PROFILES[1].name)
  {
    var stem := PosixPath.Stem(filename);
    var a, b := OutputFilename(filename, "480p"), OutputFilename(filename, "720p");
    assert a[|stem| + 1] == '4' && b[|stem| + 1] == '7';
    assert |a| == |b| && PosixPath.IsAbsolute(a) == PosixPath.IsAbsolute(b);
    var dir := PROCESSED_ROOT + jobId;
    var head := if PosixPath.IsAbsolute(a) then [] else if dir == [] || dir[|dir| - 1] == '/' then dir else dir + "/";
    assert PosixPath.Join(dir, a) == head + a && PosixPath.Join(dir, b) == head + b;
    assert (head + a)[|head| + |stem| + 1] != (head + b)[|head| + |stem| + 1];
  }

  // ---------------------------------------------------------------- submission

  function PendingTask(taskId: string, profile: Profile): Task {
    Task(taskId, profile.name, Pending, None, None)
  }

  /** The task map after the first `n` profiles have been fanned out. */
  function PendingTasks(taskIds: seq<string>, n: nat): map<string, Task>
    requires |taskIds| == |PROFILES| && n <= |PROFILES|
  {
    if n == 0 then map[]
    else PendingTasks(taskIds, n - 1)[taskIds[n - 1] := PendingTask(taskIds[n - 1], PROFILES[n - 1])]
  }

  predicate Distinct(ids: seq<string>) {
    forall i, j :: 0 <= i < j < |ids| ==> ids[i] != ids[j]
  }

  /**
   * Fan-out: one task per profile, stored under its own id, named after the
   * profile, pending, with neither URL nor error.
   */
  lemma {:induction false} PendingTasksShape(taskIds: seq<string>, n: nat)
    requires |taskIds| == |PROFILES| && n <= |PROFILES| && Distinct(taskIds)
    ensures PendingTasks(taskIds, n).Keys == set i | 0 <= i < n :: taskIds[i]
    ensures forall i :: 0 <= i < n ==> PendingTasks(taskIds, n)[taskIds[i]] == PendingTask(taskIds[i], PROFILES[i])
    ensures |PendingTasks(taskIds, n)| == n
  {
    if n > 0 {
      PendingTasksShape(taskIds, n - 1);
      var prev := PendingTasks(taskIds, n - 1);
      assert taskIds[n - 1] !in prev;
      assert (set i | 0 <= i < n :: taskIds[i]) == (set i | 0 <= i < n - 1 :: taskIds[i]) + {taskIds[n - 1]};
    }
  }

  function NewJob(jobId: string, filename: string, taskIds: seq<string>): (job: Job)
    requires |taskIds| == |PROFILES|
    ensures job.jobId == jobId && job.originalFilename == filename
  {
    Job(jobId, filename, PendingTasks(taskIds, |PROFILES|))
  }

  /** A new job has exactly the two profile tasks, each pending under its own id. */
  lemma NewJobTasks(jobId: string, filename: string, taskIds: seq<string>)
    requires |taskIds| == |PROFILES| && Distinct(taskIds)
    ensures var tasks := NewJob(jobId, filename, taskIds).tasks;
      && |tasks| == 2
      && tasks.Keys == {taskIds[0], taskIds[1]}
      && tasks[taskIds[0]] == Task(taskIds[0], "480p", Pending, None, None)
      && tasks[taskIds[1]] == Task(taskIds[1], "720p", Pending, None, None)
  {
    PendingTasksShape(taskIds, |PROFILES|);
    assert (set i | 0 <= i < 2 :: taskIds[i]) == {taskIds[0], taskIds[1]};
  }

  function ScheduledDispatch(jobId: string, filename: string, taskIds: seq<string>, i: nat): Dispatch
    requires |taskIds| == |PROFILES| && i < |PROFILES|
  {
    Dispatch(jobId, taskIds[i], InputPath(jobId, filename),
             OutputPath(jobId, filename, PROFILES[i].name), PROFILES[i].resolution)
  }

  /** The background dispatches scheduled for the first `n` profiles, in order. */
  function Schedule(jobId: string, filename: string, taskIds: seq<string>, n: nat): (s: seq<Dispatch>)
    requires |taskIds| == |PROFILES| && n <= |PROFILES|
    ensures |s| == n
    ensures forall i :: 0 <= i < n ==> s[i] == ScheduledDispatch(jobId, filename, taskIds, i)
  {
    if n == 0 then [] else Schedule(jobId, filename, taskIds, n - 1) + [ScheduledDispatch(jobId, filename, taskIds, n - 1)]
  }

  // ---------------------------------------------------------------- registry invariant and steps

  /** Download URL and error are present exactly in the terminal state that writes them. */
  predicate Consistent(t: Task) {
    match t.status
    case Pending => t.downloadUrl.None? && t.error.None?
    case Processing => t.downloadUrl.None? && t.error.None?
    case Completed => t.downloadUrl.Some? && t.error.None?
    case Failed => t.error.Some? && t.downloadUrl.None?
  }

  /** Every job and task is stored under its own id, and every task is consistent. */
  predicate RegistryInvariant(jobs: map<string, Job>) {
    forall j :: j in jobs ==>
      && jobs[j].jobId == j
      && forall t :: t in jobs[j].tasks ==> jobs[j].tasks[t].taskId == t && Consistent(jobs[j].tasks[t])
  }

  /** One legal transition of a task, or none. */
  predicate TaskStep(t: Task, u: Task) {
    || u == t
    || (t.status == Pending && u == t.(status := Processing))
    || (t.status == Processing && u.downloadUrl.Some? && u == t.(status := Completed, downloadUrl := u.downloadUrl))
    || (t.status == Processing && u.error.Some? && u == t.(status := Failed, error := u.error))
  }

  /** Job ids, file names and task sets never change; tasks only take legal steps. */
  predicate JobStep(j: Job, k: Job) {
    && k.jobId == j.jobId
    && k.originalFilename == j.originalFilename
    && k.tasks.Keys == j.tasks.Keys
    && forall t :: t in j.tasks ==> TaskStep(j.tasks[t], k.tasks[t])
  }

  /** Jobs are never removed; a job that appears has only pending tasks. */
  predicate RegistryStep(before: map<string, Job>, after: map<string, Job>) {
    && before.Keys <= after.Keys
    && (forall j :: j in before ==> JobStep(before[j], after[j]))
    && (forall j, t :: j in after && j !in before && t in after[j].tasks ==> after[j].tasks[t].status == Pending)
  }

  /** The registry after `upload_video` registers its job. */
  function Submitted(jobs: map<string, Job>, jobId: string, filename: string, taskIds: seq<string>): (r: map<string, Job>)
    requires |taskIds| == |PROFILES|
    ensures r.Keys == jobs.Keys + {jobId}
    ensures r[jobId].jobId == jobId && r[jobId].originalFilename == filename
    ensures forall j :: j in jobs && j != jobId ==> r[j] == jobs[j]
    ensures jobId !in jobs ==> RegistryStep(jobs, r)
    ensures RegistryInvariant(jobs) ==> RegistryInvariant(r)
  {
    var r := jobs[jobId := NewJob(jobId, filename, taskIds)];
    PendingTasksPending(taskIds, |PROFILES|);
    r
  }

  lemma {:induction false} PendingTasksPending(taskIds: seq<string>, n: nat)
    requires |taskIds| == |PROFILES| && n <= |PROFILES|
    ensures forall t :: t in PendingTasks(taskIds, n) ==>
      var task := PendingTasks(taskIds, n)[t];
      task.taskId == t && task.status == Pending && Consistent(task)
  {
    if n > 0 { PendingTasksPending(taskIds, n - 1); }
  }

  /** The registry after a dispatch marks its task `processing`. */
  function Started(jobs: map<string, Job>, jobId: string, taskId: string): (r: map<string, Job>)
    requires jobId in jobs && taskId in jobs[jobId].tasks
    ensures r.Keys == jobs.Keys
    ensures forall j :: j in jobs && j != jobId ==> r[j] == jobs[j]
    ensures r[jobId].jobId == jobs[jobId].jobId && r[jobId].originalFilename == jobs[jobId].originalFilename
    ensures r[jobId].tasks.Keys == jobs[jobId].tasks.Keys
    ensures forall t :: t in jobs[jobId].tasks && t != taskId ==> r[jobId].tasks[t] == jobs[jobId].tasks[t]
    ensures r[jobId].tasks[taskId].status == Processing
    ensures var u, t := r[jobId].tasks[taskId], jobs[jobId].tasks[taskId];
      u.taskId == t.taskId && u.name == t.name && u.downloadUrl == t.downloadUrl && u.error == t.error
    ensures jobs[jobId].tasks[taskId].status == Pending ==> RegistryStep(jobs, r)
    ensures RegistryInvariant(jobs) && jobs[jobId].tasks[taskId].status == Pending ==> RegistryInvariant(r)
  {
    var job := jobs[jobId];
    jobs[jobId := job.(tasks := job.tasks[taskId := job.tasks[taskId].(status := Processing)])]
  }

  /** A task's single terminal write, folded from the worker's outcome. */
  function Settle(t: Task, jobId: string, outputPath: string, outcome: Outcome): (u: Task)
    ensures u.taskId == t.taskId && u.name == t.name
    ensures u.status.IsTerminal()
    ensures u.status == Completed <==> outcome.Succeeded?
    ensures outcome.Succeeded? ==> u.downloadUrl == Some(DownloadUrl(jobId, outputPath)) && u.error == t.error
    ensures !outcome.Succeeded? ==> u.error == Some(outcome.rendered) && u.downloadUrl == t.downloadUrl
    ensures t.status == Processing && Consistent(t) ==> Consistent(u) && TaskStep(t, u)
  {
    if outcome.Succeeded? then
      t.(status := Completed, downloadUrl := Some(DownloadUrl(jobId, outputPath)))
    else
      t.(status := Failed, error := Some(outcome.rendered))
  }

  /** The registry after a dispatch records the worker's outcome. */
  function Finished(jobs: map<string, Job>, d: Dispatch, outcome: Outcome): (r: map<string, Job>)
    requires d.jobId in jobs && d.taskId in jobs[d.jobId].tasks
    ensures r.Keys == jobs.Keys
    ensures forall j :: j in jobs && j != d.jobId ==> r[j] == jobs[j]
    ensures r[d.jobId].jobId == jobs[d.jobId].jobId && r[d.jobId].originalFilename == jobs[d.jobId].originalFilename
    ensures r[d.jobId].tasks.Keys == jobs[d.jobId].tasks.Keys
    ensures forall t :: t in jobs[d.jobId].tasks && t != d.taskId ==> r[d.jobId].tasks[t] == jobs[d.jobId].tasks[t]
    ensures r[d.jobId].tasks[d.taskId] == Settle(jobs[d.jobId].tasks[d.taskId], d.jobId, d.outputPath, outcome)
    ensures RegistryInvariant(jobs) && jobs[d.jobId].tasks[d.taskId].status == Processing ==>
      RegistryStep(jobs, r) && RegistryInvariant(r)
  {
    var job := jobs[d.jobId];
    var settled := Settle(job.tasks[d.taskId], d.jobId, d.outputPath, outcome);
    jobs[d.jobId := job.(tasks := job.tasks[d.taskId := settled])]
  }

  /**
   * Along any run of registry steps a task's status never moves back, and
   * once terminal the task record never changes again.
   */
  lemma {:induction false} StatusNeverRegresses(trace: seq<map<string, Job>>, i: nat, k: nat, jobId: string, taskId: string)
    requires forall n :: 0 <= n < |trace| - 1 ==> RegistryStep(trace[n], trace[n + 1])
    requires i <= k < |trace|
    requires jobId in trace[i] && taskId in trace[i][jobId].tasks
    ensures jobId in trace[k] && taskId in trace[k][jobId].tasks
    ensures trace[i][jobId].tasks[taskId].status.Rank() <= trace[k][jobId].tasks[taskId].status.Rank()
    ensures trace[i][jobId].tasks[taskId].status.IsTerminal() ==>
      trace[k][jobId].tasks[taskId] == trace[i][jobId].tasks[taskId]
    decreases k - i
  {
    if i < k {
      StatusNeverRegresses(trace, i, k - 1, jobId, taskId);
      assert RegistryStep(trace[k - 1], trace[k]);
      assert JobStep(trace[k - 1][jobId], trace[k][jobId]);
    }
  }

  // ---------------------------------------------------------------- the process-wide registry

  class Registry {

    var jobs: map<string, Job>

    ghost predicate Valid()
      reads this
    {
      RegistryInvariant(jobs)
    }

    constructor ()
      ensures Valid() && jobs == map[]
    {
      jobs := map[];
    }

    /**
     * `upload_video`: registers a job under the fresh `jobId` and fans it out,
     * returning the dispatches it schedules in the background.
     */
    method Submit(jobId: string, filename: string, taskIds: seq<string>) returns (scheduled: seq<Dispatch>)
      requires Valid()
      requires jobId !in jobs
      requires |taskIds| == |PROFILES| && Distinct(taskIds)
      modifies this
      ensures Valid()
      ensures jobs == Submitted(old(jobs), jobId, filename, taskIds)
      ensures scheduled == Schedule(jobId, filename, taskIds, |PROFILES|)
    {
      jobs := jobs[jobId := Job(jobId, filename, map[])];
      scheduled := [];
      for i := 0 to |PROFILES|
        invariant jobs == old(jobs)[jobId := Job(jobId, filename, PendingTasks(taskIds, i))]
        invariant scheduled == Schedule(jobId, filename, taskIds, i)
      {
        var profile := PROFILES[i];
        var taskId := taskIds[i];
        var outputFilename := PosixPath.Stem(filename) + "_" + profile.name + ".mp4";
        var outputPath := PosixPath.Join(PROCESSED_ROOT + jobId, outputFilename);
        var job := jobs[jobId];
        jobs := jobs[jobId := job.(tasks := job.tasks[taskId := Task(taskId, profile.name, Pending, None, None)])];
        scheduled := scheduled + [Dispatch(jobId, taskId, InputPath(jobId, filename), outputPath, profile.resolution)];
      }
      assert jobs == Submitted(old(jobs), jobId, filename, taskIds);
    }

    /** First half of `run_transcoding_task_async`: the task goes `processing`. */
    method Start(d: Dispatch)
      requires Valid()
      requires d.jobId in jobs && d.taskId in jobs[d.jobId].tasks
      requires jobs[d.jobId].tasks[d.taskId].status == Pending
      modifies this
      ensures Valid()
      ensures jobs == Started(old(jobs), d.jobId, d.taskId)
      ensures RegistryStep(old(jobs), jobs)
    {
      var job := jobs[d.jobId];
      jobs := jobs[d.jobId := job.(tasks := job.tasks[d.taskId := job.tasks[d.taskId].(status := Processing)])];
    }

    /** Second half, after the worker call returns: exactly one terminal write. */
    method Finish(d: Dispatch, outcome: Outcome)
      requires Valid()
      requires d.jobId in jobs && d.taskId in jobs[d.jobId].tasks
      requires jobs[d.jobId].tasks[d.taskId].status == Processing
      modifies this
      ensures Valid()
      ensures jobs == Finished(old(jobs), d, outcome)
      ensures RegistryStep(old(jobs), jobs)
    {
      var job := jobs[d.jobId];
      var task := job.tasks[d.taskId];
      if outcome.Succeeded? {
        task := task.(status := Completed, downloadUrl := Some(DownloadUrl(d.jobId, d.outputPath)));
      } else {
        task := task.(status := Failed, error := Some(outcome.rendered));
      }
      jobs := jobs[d.jobId := job.(tasks := job.tasks[d.taskId := task])];
    }
  }
}
