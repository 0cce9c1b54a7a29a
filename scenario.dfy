/**
 * A whole job run through the registry and the status feed.
 *
 * `RunInOrder` is the schedule the server produces: the request's background
 * tasks run one after another once the response is sent, so the `480p`
 * dispatch runs to its end before the `720p` one starts. `RunOutOfOrder` is a
 * schedule the design allows (dispatches running side by side and finishing
 * in the opposite order) that the server as written never produces; the
 * registry steps admit it all the same.
 */
module Scenario {

  import opened Wrappers
  import opened Orchestrator
  import opened StatusFeed

  /**
   * The server's own schedule: submit, then run the `480p` dispatch to its
   * end, then the `720p` one, whatever the worker answers. The registry after
   * each stage: every stage is a legal step, the two tasks are never
   * `processing` together, and the job is done only at the end.
   */
  method RunInOrder(jobId: string, filename: string, id480: string, id720: string,
                    o480: Outcome, o720: Outcome)
    returns (s0: map<string, Job>, s1: map<string, Job>, s2: map<string, Job>,
             s3: map<string, Job>, s4: map<string, Job>)
    requires id480 != id720
    ensures RegistryStep(s0, s1) && RegistryStep(s1, s2) && RegistryStep(s2, s3) && RegistryStep(s3, s4)
    ensures jobId in s0 && jobId in s1 && jobId in s2 && jobId in s3 && jobId in s4
    ensures s0[jobId].tasks.Keys == s1[jobId].tasks.Keys == s2[jobId].tasks.Keys == {id480, id720}
    ensures s3[jobId].tasks.Keys == s4[jobId].tasks.Keys == {id480, id720}
    ensures s0[jobId].tasks[id480].status == Pending && s0[jobId].tasks[id720].status == Pending
    ensures s1[jobId].tasks[id480].status == Processing && s1[jobId].tasks[id720].status == Pending
    ensures s2[jobId].tasks[id480].status.IsTerminal() && s2[jobId].tasks[id720].status == Pending
    ensures s3[jobId].tasks[id480].status.IsTerminal() && s3[jobId].tasks[id720].status == Processing
    ensures !Done(s0[jobId]) && !Done(s1[jobId]) && !Done(s2[jobId]) && !Done(s3[jobId]) && Done(s4[jobId])
    ensures s4[jobId].tasks[id480]
         == Settle(Task(id480, "480p", Processing, None, None), jobId, OutputPath(jobId, filename, "480p"), o480)
    ensures s4[jobId].tasks[id720]
         == Settle(Task(id720, "720p", Processing, None, None), jobId, OutputPath(jobId, filename, "720p"), o720)
  {
    var registry, scheduled;
    registry, scheduled, s0 := SubmitJob(jobId, filename, id480, id720);
    s1, s2 := RunDispatch(registry, scheduled[0], id720, "480p", o480);
    s3, s4 := RunDispatch(registry, scheduled[1], id480, "720p", o720);
  }

  /** `upload_video` on a fresh registry: one job with two pending tasks. */
  method SubmitJob(jobId: string, filename: string, id480: string, id720: string)
    returns (registry: Registry, scheduled: seq<Dispatch>, submitted: map<string, Job>)
    requires id480 != id720
    ensures fresh(registry) && registry.Valid() && registry.jobs == submitted
    ensures scheduled == Schedule(jobId, filename, [id480, id720], 2)
    ensures scheduled[0].jobId == scheduled[1].jobId == jobId
    ensures scheduled[0].taskId == id480 && scheduled[1].taskId == id720
    ensures scheduled[0].outputPath == OutputPath(jobId, filename, "480p")
    ensures scheduled[1].outputPath == OutputPath(jobId, filename, "720p")
    ensures jobId in submitted && submitted[jobId].tasks.Keys == {id480, id720}
    ensures submitted[jobId].tasks[id480] == Task(id480, "480p", Pending, None, None)
    ensures submitted[jobId].tasks[id720] == Task(id720, "720p", Pending, None, None)
    ensures !Done(submitted[jobId])
  {
    registry := new Registry();
    scheduled := registry.Submit(jobId, filename, [id480, id720]);
    NewJobTasks(jobId, filename, [id480, id720]);
    submitted := registry.jobs;
    UnfinishedTaskNotDone(submitted[jobId], id480);
  }

  /**
   * One dispatch run from start to end while the job's other task is left
   * alone: the registry once the task is `processing` and once it is settled.
   */
  method RunDispatch(registry: Registry, d: Dispatch, other: string, name: string, outcome: Outcome)
    returns (started: map<string, Job>, settled: map<string, Job>)
    requires registry.Valid() && d.jobId in registry.jobs && other != d.taskId
    requires registry.jobs[d.jobId].tasks.Keys == {other, d.taskId}
    requires registry.jobs[d.jobId].tasks[d.taskId] == Task(d.taskId, name, Pending, None, None)
    modifies registry
    ensures registry.Valid() && registry.jobs == settled
    ensures RegistryStep(old(registry.jobs), started) && RegistryStep(started, settled)
    ensures d.jobId in started && d.jobId in settled
    ensures started[d.jobId].tasks.Keys == settled[d.jobId].tasks.Keys == {other, d.taskId}
    ensures started[d.jobId].tasks[other] == settled[d.jobId].tasks[other] == old(registry.jobs)[d.jobId].tasks[other]
    ensures started[d.jobId].tasks[d.taskId].status == Processing
    ensures settled[d.jobId].tasks[d.taskId]
         == Settle(Task(d.taskId, name, Processing, None, None), d.jobId, d.outputPath, outcome)
    ensures !Done(started[d.jobId])
    ensures Done(settled[d.jobId]) <==> settled[d.jobId].tasks[other].status.IsTerminal()
  {
    registry.Start(d);
    started := registry.jobs;
    registry.Finish(d, outcome);
    settled := registry.jobs;
    UnfinishedTaskNotDone(started[d.jobId], d.taskId);
    DoneWithTwoTasks(settled[d.jobId], other, d.taskId);
  }

  /**
   * A schedule the design allows but the server never produces: both
   * dispatches started, `720p` failing before `480p` succeeds. The worker's
   * reply is abstract here: "bad resolution" stands for the `str()` of the
   * rejecting response, which is what the task's error records. The registry
   * as it stands after each stage.
   */
  method RunOutOfOrder(jobId: string, filename: string, id480: string, id720: string)
    returns (submitted: map<string, Job>, running: map<string, Job>,
             halfDone: map<string, Job>, finished: map<string, Job>)
    requires id480 != id720
    ensures jobId in submitted && jobId in running && jobId in halfDone && jobId in finished
    ensures finished[jobId].jobId == jobId && finished[jobId].originalFilename == filename
    ensures halfDone[jobId].tasks.Keys == finished[jobId].tasks.Keys == {id480, id720}
    ensures halfDone[jobId].tasks[id720].status == Failed && halfDone[jobId].tasks[id480].status == Processing
    ensures finished[jobId].tasks[id480]
         == Task(id480, "480p", Completed, Some(DownloadUrl(jobId, OutputPath(jobId, filename, "480p"))), None)
    ensures finished[jobId].tasks[id720] == Task(id720, "720p", Failed, None, Some("bad resolution"))
    ensures !Done(submitted[jobId]) && !Done(running[jobId]) && !Done(halfDone[jobId]) && Done(finished[jobId])
    ensures submitted[jobId] != running[jobId] && running[jobId] != halfDone[jobId]
    ensures halfDone[jobId] != finished[jobId]
  {
    var registry, scheduled;
    registry, scheduled, submitted, running := StartBoth(jobId, filename, id480, id720);
    registry.Finish(scheduled[1], Rejected("bad resolution"));
    halfDone := registry.jobs;
    registry.Finish(scheduled[0], Succeeded);
    finished := registry.jobs;
    assert submitted[jobId] != running[jobId] by {
      assert submitted[jobId].tasks[id480].status != running[jobId].tasks[id480].status;
    }
    assert halfDone[jobId].tasks.Keys == finished[jobId].tasks.Keys == {id480, id720};
    assert halfDone[jobId].tasks[id480].status == Processing;
    assert halfDone[jobId].tasks[id720].status == Failed;
    assert finished[jobId].tasks[id480].status == Completed;
    assert !Done(halfDone[jobId]) by { DoneWithTwoTasks(halfDone[jobId], id480, id720); }
    assert Done(finished[jobId]) by { DoneWithTwoTasks(finished[jobId], id480, id720); }
  }

  /** Submission and both dispatches started, before any worker answers. */
  method StartBoth(jobId: string, filename: string, id480: string, id720: string)
    returns (registry: Registry, scheduled: seq<Dispatch>, submitted: map<string, Job>, running: map<string, Job>)
    requires id480 != id720
    ensures fresh(registry) && registry.Valid() && registry.jobs == running
    ensures scheduled == Schedule(jobId, filename, [id480, id720], 2)
    ensures jobId in submitted && jobId in running
    ensures !Done(submitted[jobId]) && !Done(running[jobId])
    ensures id480 in submitted[jobId].tasks && submitted[jobId].tasks[id480].status == Pending
    ensures running[jobId].jobId == jobId && running[jobId].originalFilename == filename
    ensures running[jobId].tasks.Keys == {id480, id720}
    ensures running[jobId].tasks[id480] == Task(id480, "480p", Processing, None, None)
    ensures running[jobId].tasks[id720] == Task(id720, "720p", Processing, None, None)
  {
    registry := new Registry();
    scheduled := registry.Submit(jobId, filename, [id480, id720]);
    NewJobTasks(jobId, filename, [id480, id720]);
    submitted := registry.jobs;
    registry.Start(scheduled[0]);
    registry.Start(scheduled[1]);
    running := registry.jobs;
    assert !Done(submitted[jobId]) by { DoneWithTwoTasks(submitted[jobId], id480, id720); }
    assert !Done(running[jobId]) by { DoneWithTwoTasks(running[jobId], id480, id720); }
  }

  /**
   * The out-of-order run watched through the status feed: every poll yields, the
   * intermediate poll shows `720p` failed while `480p` is still processing,
   * and the feed ends on the finished job.
   */
  method OutOfOrderCompletion(jobId: string, filename: string, id480: string, id720: string)
    returns (log: seq<Option<Event>>, stopped: bool)
    requires id480 != id720
    ensures stopped && |log| == 4 && forall k :: 0 <= k < 4 ==> log[k].Some? && log[k].value.Snapshot?
    ensures var job := log[2].value.job;
      && job.tasks.Keys == {id480, id720}
      && job.tasks[id720].status == Failed && job.tasks[id480].status == Processing
    ensures var job := log[3].value.job;
      && job.tasks.Keys == {id480, id720}
      && job.tasks[id480]
         == Task(id480, "480p", Completed, Some(DownloadUrl(jobId, OutputPath(jobId, filename, "480p"))), None)
      && job.tasks[id720] == Task(id720, "720p", Failed, None, Some("bad resolution"))
  {
    var submitted, running, halfDone, finished := RunOutOfOrder(jobId, filename, id480, id720);
    log, stopped := StatusStream(jobId, [submitted, running, halfDone, finished]);
    FeedOverProgress(jobId, submitted, running, halfDone, finished);
  }

  /**
   * Four polls of a job that is unfinished three times, changing each time,
   * and finished the fourth: the feed yields at every poll and then ends.
   */
  lemma FeedOverProgress(jobId: string, p0: map<string, Job>, p1: map<string, Job>,
                         p2: map<string, Job>, p3: map<string, Job>)
    requires jobId in p0 && jobId in p1 && jobId in p2 && jobId in p3
    requires !Done(p0[jobId]) && !Done(p1[jobId]) && !Done(p2[jobId]) && Done(p3[jobId])
    requires p0[jobId] != p1[jobId] && p1[jobId] != p2[jobId] && p2[jobId] != p3[jobId]
    ensures Subscribe(jobId, [p0, p1, p2, p3])
         == Feed([Some(Snapshot(p0[jobId])), Some(Snapshot(p1[jobId])),
                  Some(Snapshot(p2[jobId])), Some(Snapshot(p3[jobId]))], true)
  {
    var polls := [p0, p1, p2, p3];
    SubscribeCharacterized(jobId, polls);
    StopsWithinOnePoll(jobId, polls, 3);
    var r := Subscribe(jobId, polls);
    assert |r.log| == 4 by {
      assert !StopsAt(jobId, polls[0]) && !StopsAt(jobId, polls[1]) && !StopsAt(jobId, polls[2]);
    }
    assert polls[0] == p0 && polls[1] == p1 && polls[2] == p2 && polls[3] == p3;
    assert r.log[0] == Some(Snapshot(p0[jobId]));
    assert r.log[1] == Some(Snapshot(p1[jobId]));
    assert r.log[2] == Some(Snapshot(p2[jobId]));
    assert r.log[3] == Some(Snapshot(p3[jobId]));
  }

  /** A job with a task still to finish is not done. */
  lemma UnfinishedTaskNotDone(job: Job, t: string)
    requires t in job.tasks && !job.tasks[t].status.IsTerminal()
    ensures !Done(job)
  {
  }

  /** A job of exactly two tasks is done when both of them are terminal. */
  lemma DoneWithTwoTasks(job: Job, a: string, b: string)
    requires a != b && job.tasks.Keys == {a, b}
    ensures Done(job) <==> job.tasks[a].status.IsTerminal() && job.tasks[b].status.IsTerminal()
  {
    assert |job.tasks| == |job.tasks.Keys| == 2;
  }
}
