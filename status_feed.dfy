/**
 * The server-sent status feed of one job: the registry is polled once per
 * tick; a snapshot of the job is yielded on the first poll and whenever it
 * differs by value from the last one yielded; the feed ends once the job has
 * tasks and all of them are terminal, or at once with an error event if the
 * job is unknown.
 */
module StatusFeed {

  import opened Wrappers
  import opened Orchestrator

  const NOT_FOUND_MESSAGE := "Job ID no encontrado"

  /** What one tick can yield: a deep copy of the job, or the error record. */
  datatype Event = Snapshot(job: Job) | NotFound(error: string)

  /** `all_done and len(tasks) > 0`. */
  predicate Done(job: Job) {
    |job.tasks| > 0 && forall t :: t in job.tasks ==> job.tasks[t].status.IsTerminal()
  }

  /** The feed ends at a poll where the job is missing or done. */
  predicate StopsAt(jobId: string, poll: map<string, Job>) {
    jobId !in poll || Done(poll[jobId])
  }

  /**
   * A run of the feed: `log[k]` is what poll `k` yielded (None when it
   * yielded nothing), and `stopped` says whether the generator returned.
   */
  datatype Feed = Feed(log: seq<Option<Event>>, stopped: bool)

  /**
   * The feed over the registry states seen at successive polls, given the
   * snapshot yielded last (None before the first yield).
   */
  function FeedFrom(jobId: string, polls: seq<map<string, Job>>, last: Option<Job>): (r: Feed)
    ensures |r.log| <= |polls|
    ensures !r.stopped ==> |r.log| == |polls|
    ensures r.stopped ==> |r.log| > 0 && StopsAt(jobId, polls[|r.log| - 1])
    ensures |polls| > 0 && jobId !in polls[0] ==> r == Feed([Some(NotFound(NOT_FOUND_MESSAGE))], true)
    decreases |polls|
  {
    if polls == [] then Feed([], false)
    else if jobId !in polls[0] then Feed([Some(NotFound(NOT_FOUND_MESSAGE))], true)
    else
      var current := polls[0][jobId];
      var emit := last != Some(current);
      var yielded := if emit then Some(Snapshot(current)) else None;
      if Done(current) then Feed([yielded], true)
      else
        var rest := FeedFrom(jobId, polls[1..], if emit then Some(current) else last);
        Feed([yielded] + rest.log, rest.stopped)
  }

  /**
   * `status_generator(job_id)` over the given polls: the first poll of a known
   * job always yields it, and the feed ends only at a poll that finds the job
   * missing or done.
   */
  function Subscribe(jobId: string, polls: seq<map<string, Job>>): (r: Feed)
    ensures |polls| > 0 && jobId in polls[0] ==> |r.log| > 0 && r.log[0] == Some(Snapshot(polls[0][jobId]))
    ensures |r.log| <= |polls|
    ensures r.stopped ==> |r.log| > 0 && StopsAt(jobId, polls[|r.log| - 1])
  {
    FeedFrom(jobId, polls, None)
  }

  /**
   * A done job is final: along any run of registry steps it stays in the
   * registry with exactly the same record, so a feed that stopped on it has
   * missed nothing.
   */
  lemma {:induction false} DoneIsFinal(trace: seq<map<string, Job>>, i: nat, k: nat, jobId: string)
    requires forall n :: 0 <= n < |trace| - 1 ==> RegistryStep(trace[n], trace[n + 1])
    requires i <= k < |trace|
    requires jobId in trace[i] && Done(trace[i][jobId])
    ensures jobId in trace[k] && trace[k][jobId] == trace[i][jobId]
    decreases k - i
  {
    if i < k {
      DoneIsFinal(trace, i, k - 1, jobId);
      assert RegistryStep(trace[k - 1], trace[k]);
      var before, after := trace[k - 1][jobId], trace[k][jobId];
      assert JobStep(before, after);
      assert forall t :: t in before.tasks ==> after.tasks[t] == before.tasks[t] by {
        forall t | t in before.tasks ensures after.tasks[t] == before.tasks[t] {
          assert TaskStep(before.tasks[t], after.tasks[t]);
          assert before.tasks[t].status.IsTerminal();
        }
      }
      assert after.tasks == before.tasks;
    }
  }

  /** Whether poll `k` sees a job state different from the one before it. */
  predicate Changed(jobId: string, polls: seq<map<string, Job>>, last: Option<Job>, k: nat)
    requires k < |polls| && jobId in polls[k]
  {
    if k == 0 then last != Some(polls[0][jobId])
    else jobId !in polls[k - 1] || polls[k - 1][jobId] != polls[k][jobId]
  }

  /** What poll `k` yields: the error record, a changed snapshot, or nothing. */
  function Expected(jobId: string, polls: seq<map<string, Job>>, last: Option<Job>, k: nat): Option<Event>
    requires k < |polls|
  {
    if jobId !in polls[k] then Some(NotFound(NOT_FOUND_MESSAGE))
    else if Changed(jobId, polls, last, k) then Some(Snapshot(polls[k][jobId]))
    else None
  }

  /** The stop rule: the feed runs until the first poll at which it stops, or the polls run out. */
  ghost predicate StopsFirstAt(jobId: string, polls: seq<map<string, Job>>, r: Feed)
    requires |r.log| <= |polls| && (r.stopped ==> |r.log| > 0)
  {
    && (forall k :: 0 <= k < |r.log| - 1 ==> !StopsAt(jobId, polls[k]))
    && (r.stopped ==> StopsAt(jobId, polls[|r.log| - 1]))
    && (!r.stopped ==> forall k :: 0 <= k < |polls| ==> !StopsAt(jobId, polls[k]))
  }

  /** Poll `k + 1` of the polls judged against the state of poll `0` as last seen. */
  lemma ExpectedShift(jobId: string, polls: seq<map<string, Job>>, last: Option<Job>, k: nat)
    requires k + 1 < |polls| && jobId in polls[0]
    ensures Expected(jobId, polls[1..], Some(polls[0][jobId]), k) == Expected(jobId, polls, last, k + 1)
  {
    assert polls[1..][k] == polls[k + 1];
    if k > 0 { assert polls[1..][k - 1] == polls[k]; }
  }

  /**
   * What the feed does, poll by poll: it obeys the stop rule and yields at
   * each poll exactly what `Expected` says.
   */
  lemma {:induction false} FeedFromCharacterized(jobId: string, polls: seq<map<string, Job>>, last: Option<Job>)
    ensures StopsFirstAt(jobId, polls, FeedFrom(jobId, polls, last))
    ensures var r := FeedFrom(jobId, polls, last);
      forall k :: 0 <= k < |r.log| ==> r.log[k] == Expected(jobId, polls, last, k)
    decreases |polls|
  {
    var r := FeedFrom(jobId, polls, last);
    if polls != [] && jobId in polls[0] && !Done(polls[0][jobId]) {
      var current := polls[0][jobId];
      var tail := polls[1..];
      FeedFromCharacterized(jobId, tail, Some(current));
      var rest := FeedFrom(jobId, tail, Some(current));
      assert r.log == [r.log[0]] + rest.log;
      assert r.stopped == rest.stopped;
      forall k | 1 <= k < |r.log| ensures r.log[k] == Expected(jobId, polls, last, k) {
        ExpectedShift(jobId, polls, last, k - 1);
      }
      forall k | 1 <= k < |polls| ensures polls[k] == tail[k - 1] { }
    }
  }

  /**
   * The subscription seen from the client: it obeys the stop rule; a missing
   * job yields the error record; the first poll of a known job always yields
   * its snapshot; a later poll yields exactly when the job changed since the
   * previous poll.
   */
  lemma SubscribeCharacterized(jobId: string, polls: seq<map<string, Job>>)
    ensures StopsFirstAt(jobId, polls, Subscribe(jobId, polls))
    ensures var r := Subscribe(jobId, polls);
      && (forall k :: 0 <= k < |r.log| && jobId !in polls[k] ==> r.log[k] == Some(NotFound(NOT_FOUND_MESSAGE)))
      && (|r.log| > 0 && jobId in polls[0] ==> r.log[0] == Some(Snapshot(polls[0][jobId])))
      && (forall k :: 1 <= k < |r.log| && jobId in polls[k] ==>
            r.log[k] == if polls[k - 1][jobId] != polls[k][jobId] then Some(Snapshot(polls[k][jobId])) else None)
  {
    FeedFromCharacterized(jobId, polls, None);
    var r := Subscribe(jobId, polls);
    forall k | 1 <= k < |r.log| && jobId in polls[k]
      ensures r.log[k] == if polls[k - 1][jobId] != polls[k][jobId] then Some(Snapshot(polls[k][jobId])) else None
    {
      assert !StopsAt(jobId, polls[k - 1]);
      assert r.log[k] == Expected(jobId, polls, None, k);
    }
  }

  /** The feed ends no later than the first poll that finds the job done or missing. */
  lemma StopsWithinOnePoll(jobId: string, polls: seq<map<string, Job>>, k: nat)
    requires k < |polls| && StopsAt(jobId, polls[k])
    ensures Subscribe(jobId, polls).stopped && |Subscribe(jobId, polls).log| <= k + 1
  {
    FeedFromCharacterized(jobId, polls, None);
  }

  /** Between two yields nothing was seen to change, so a yield never repeats the one before it. */
  lemma NoRepeatedSnapshot(jobId: string, polls: seq<map<string, Job>>, i: nat, k: nat)
    requires var r := Subscribe(jobId, polls);
      && i < k < |r.log| && r.log[i].Some? && r.log[k].Some?
      && forall m :: i < m < k ==> r.log[m].None?
    ensures Subscribe(jobId, polls).log[i] != Subscribe(jobId, polls).log[k]
  {
    var r := Subscribe(jobId, polls);
    FeedFromCharacterized(jobId, polls, None);
    assert !StopsAt(jobId, polls[i]);
    var m := i;
    while m < k - 1
      invariant i <= m <= k - 1
      invariant jobId in polls[m] && polls[m][jobId] == polls[i][jobId]
    {
      assert !StopsAt(jobId, polls[m + 1]);
      assert r.log[m + 1] == Expected(jobId, polls, None, m + 1);
      m := m + 1;
    }
    assert r.log[i] == Expected(jobId, polls, None, i);
    assert r.log[k] == Expected(jobId, polls, None, k);
  }

  /** The most recent yield at or before poll `i` of a still-known job shows the job as poll `i` saw it. */
  lemma {:induction false} LatestYieldIsCurrent(jobId: string, polls: seq<map<string, Job>>, i: nat)
    requires var r := Subscribe(jobId, polls); i < |r.log| && jobId in polls[i]
    ensures var r := Subscribe(jobId, polls);
      exists j :: 0 <= j <= i && r.log[j] == Some(Snapshot(polls[i][jobId]))
        && forall m :: j < m <= i ==> r.log[m].None?
  {
    var r := Subscribe(jobId, polls);
    FeedFromCharacterized(jobId, polls, None);
    assert r.log[i] == Expected(jobId, polls, None, i);
    if r.log[i].None? {
      assert !StopsAt(jobId, polls[i - 1]);
      LatestYieldIsCurrent(jobId, polls, i - 1);
      var j :| 0 <= j <= i - 1 && r.log[j] == Some(Snapshot(polls[i - 1][jobId]))
        && forall m :: j < m <= i - 1 ==> r.log[m].None?;
      assert forall m :: j < m <= i ==> r.log[m].None?;
    } else {
      assert r.log[i] == Some(Snapshot(polls[i][jobId]));
    }
  }

  /**
   * When the feed ends on a finished job, the last thing it yielded is that
   * finished job: the client is left holding the final state.
   */
  lemma FinalStateDelivered(jobId: string, polls: seq<map<string, Job>>)
    requires var r := Subscribe(jobId, polls); r.stopped && jobId in polls[|r.log| - 1]
    ensures var r := Subscribe(jobId, polls);
      exists i :: 0 <= i < |r.log| && r.log[i] == Some(Snapshot(polls[|r.log| - 1][jobId]))
        && forall m :: i < m < |r.log| ==> r.log[m].None?
  {
    LatestYieldIsCurrent(jobId, polls, |Subscribe(jobId, polls).log| - 1);
  }

  /** One poll of the feed, unfolded at position `k`. */
  lemma FeedFromAt(jobId: string, polls: seq<map<string, Job>>, k: nat, last: Option<Job>)
    requires k < |polls|
    ensures jobId !in polls[k] ==>
      FeedFrom(jobId, polls[k..], last) == Feed([Some(NotFound(NOT_FOUND_MESSAGE))], true)
    ensures jobId in polls[k] ==>
      var current := polls[k][jobId];
      var yielded := if last != Some(current) then Some(Snapshot(current)) else None;
      FeedFrom(jobId, polls[k..], last) ==
        if Done(current) then Feed([yielded], true)
        else var rest := FeedFrom(jobId, polls[k + 1..], Some(current)); Feed([yielded] + rest.log, rest.stopped)
  {
    assert polls[k..][0] == polls[k] && polls[k..][1..] == polls[k + 1..];
  }

  /**
   * `status_generator` itself: a loop over the polls keeping `last_state`
   * and `initial_sent`, yielding and stopping as the source does.
   */
  method StatusStream(jobId: string, polls: seq<map<string, Job>>) returns (log: seq<Option<Event>>, stopped: bool)
    ensures Feed(log, stopped) == Subscribe(jobId, polls)
  {
    var lastState: Option<Job> := None;
    var initialSent := false;
    log, stopped := [], false;
    var k := 0;
    while k < |polls| && !stopped
      invariant 0 <= k <= |polls| && |log| == k
      invariant initialSent <==> lastState.Some?
      invariant stopped ==> Feed(log, true) == Subscribe(jobId, polls)
      invariant !stopped ==>
        var rest := FeedFrom(jobId, polls[k..], lastState);
        Subscribe(jobId, polls) == Feed(log + rest.log, rest.stopped)
    {
      FeedFromAt(jobId, polls, k, lastState);
      if jobId in polls[k] {
        var currentState := polls[k][jobId];
        var yielded: Option<Event> := None;
        if lastState != Some(currentState) || !initialSent {
          yielded := Some(Snapshot(currentState));
          lastState := Some(currentState);
          initialSent := true;
        }
        log := log + [yielded];
        var allDone := forall t :: t in currentState.tasks ==> currentState.tasks[t].status.IsTerminal();
        if allDone && |currentState.tasks| > 0 {
          stopped := true;
        }
      } else {
        log := log + [Some(NotFound(NOT_FOUND_MESSAGE))];
        stopped := true;
      }
      k := k + 1;
    }
    assert !stopped ==> polls[k..] == [];
  }

  /** Recording the last outstanding outcome makes the job done, ending its feed. */
  lemma LastOutcomeFinishesJob(jobs: map<string, Job>, d: Dispatch, outcome: Outcome)
    requires d.jobId in jobs && d.taskId in jobs[d.jobId].tasks
    requires forall t :: t in jobs[d.jobId].tasks && t != d.taskId ==> jobs[d.jobId].tasks[t].status.IsTerminal()
    ensures Done(Finished(jobs, d, outcome)[d.jobId])
    ensures StopsAt(d.jobId, Finished(jobs, d, outcome))
  {
    var job := Finished(jobs, d, outcome)[d.jobId];
    assert d.taskId in job.tasks;
  }

  /** A freshly submitted job is never done, so its feed keeps running. */
  lemma NewJobNotDone(jobId: string, filename: string, taskIds: seq<string>)
    requires |taskIds| == |PROFILES| && Distinct(taskIds)
    ensures !Done(NewJob(jobId, filename, taskIds))
  {
    NewJobTasks(jobId, filename, taskIds);
    assert NewJob(jobId, filename, taskIds).tasks[taskIds[0]].status == Pending;
  }
}
