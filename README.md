# Transcoder job orchestration — a Dafny model

This project models the orchestration core of the video transcoder's API
server (`api_server/main.py`), in which:

- uploading a file creates a **job** in a process-wide registry (`jobs`);
- the job fans out into one **task** per entry of the fixed profile table
  `480p -> 854x480`, `720p -> 1280x720`;
- each task's background dispatch marks it `processing`, calls a remote worker,
  and records exactly one terminal result: `completed` with a download URL, or
  `failed` with the error text;
- a **status feed** polls the registry once per tick. It yields a deep copy of
  the job on the first poll and whenever the job has changed by value. It ends
  once the job has tasks and all of them are terminal. For an unknown job it
  yields a single error record and ends.

Files:

- `wrappers.dfy`: `Option`, used for the task fields `download_url` and
  `error`, which may be absent.
- `posix_path.dfy`: the parts of `str.rfind`, `os.path.basename`,
  `os.path.join` and `os.path.splitext` that the server uses. The functions
  are plain definitions. Lemmas state what they mean.
- `orchestrator.dfy`:
  - the `Task` and `Job` records, the profile table, and the derived paths and URL;
  - the spec functions `Submitted`, `Started`, `Settle` and `Finished`, which
    state what each step does to the registry;
  - the registry invariant and the legal-step relation;
  - the class `Registry`, whose field `jobs: map<string, Job>` is updated in
    place by `Submit` (which holds the fan-out loop), `Start` and `Finish`.
- `status_feed.dfy`:
  - the function `FeedFrom`/`Subscribe`, the reference definition of the feed
    over a sequence of polled registry states;
  - the method `StatusStream`, which is the generator's loop with its
    `last_state` and `initial_sent` variables and is proved equal to
    `Subscribe`;
  - lemmas that characterise the feed.
- `scenario.dfy`: one job run through the registry on two schedules.
  - `RunInOrder` is the server's own schedule. The request's background tasks
    run one after another once the response is sent, so the `480p` dispatch
    runs to its end before the `720p` one starts.
  - `RunOutOfOrder` is a schedule the design allows and the server as written
    never produces: both dispatches run side by side and finish in the
    opposite order, with `720p` failing. It is also watched through the feed.

Modelling choices:

- Random UUIDs become parameters. The job id must not be in `jobs`, and the
  two task ids must differ.
- A dispatch's arguments (input path, output path, resolution) are not stored
  in `jobs` by the source. `Submit` returns them as the list of dispatches it
  schedules.
- The suspension point of the dispatch splits it into `Start` and `Finish`.
  Each task is dispatched once, so `Start` requires the task to be `pending`
  and `Finish` requires it to be `processing`.
- The worker's answer is an `Outcome`:
  - `Succeeded` is a response with `success` set;
  - `Rejected(rendered)` is a response with `success` unset;
  - `Raised(rendered)` is an exception returned as a value.
  `rendered` is the value's `str()`, which becomes the task's `error`.
- A run of the feed is a `Feed(log, stopped)`. `log[k]` is what poll `k`
  yielded, and `None` means that poll yielded nothing. The polls are the
  registry states seen at successive ticks.
- Paths follow `os.path.join` exactly. An absolute upload file name replaces
  the upload or processed directory, as it does in the code.

## Model

| member | source | states |
|---|---|---|
| `PosixPath.BasenameSpec` | api_server/main.py:43 | the basename is the longest separator-free suffix of the path |
| `PosixPath.SplitExtSpec` | api_server/main.py:61 | root + extension is the name; a non-empty extension starts at the last dot of the last component, and only when something other than a dot precedes that dot |
| `PosixPath.StemDropsExtension` | api_server/main.py:61 | for `base.ext` with `base` not made of dots alone (so `.clip.mov` included), the stem is `base` and the extension is `.ext` |
| `PosixPath.NoDotNoExtension` | api_server/main.py:61 | a name without a dot is its own stem |
| `PosixPath.BasenameOfJoin` | api_server/main.py:62 | joining a relative, separator-free file name onto any directory gives a path whose basename is that file name |
| `Orchestrator.InputPathSpec` | api_server/main.py:51-54 | a plain upload name lands in `/media/uploads/<job>/` and is that path's basename; an absolute upload name replaces the directory and is the path itself |
| `Orchestrator.OutputPathSpec` | api_server/main.py:61-62 | for any upload name without a separator, the output path is `/media/processed/<job>/<stem>_<profile>.mp4`, its basename is that file name, and the download URL is `/downloads/<job>/` followed by it |
| `Orchestrator.OutputNaming` | api_server/main.py:61-62 | for an upload `base.ext` (base not made of dots alone), the output is `<processed dir>/base_<profile>.mp4`, and the download URL `"/downloads/" + job_id + "/" + basename` names `base_<profile>.mp4` |
| `Orchestrator.DistinctOutputs` | api_server/main.py:57-62 | the 480p and 720p tasks of a job never get the same output path |
| `Orchestrator.PendingTasksShape` | api_server/main.py:59-63 | after the first n profiles, the task map holds exactly n tasks, each stored under its own id, named after its profile, pending, with no URL or error |
| `Orchestrator.NewJob` | api_server/main.py:58 | the new job record carries the given job id and original file name |
| `Orchestrator.NewJobTasks` | api_server/main.py:57-63 | a new job has exactly two tasks: `480p` and `720p`, pending, keyed by their ids |
| `Orchestrator.Schedule` | api_server/main.py:59-64 | one dispatch per profile, in table order, carrying the task id, the input path, the derived output path and the profile's resolution |
| `Orchestrator.Submitted` | api_server/main.py:58-63 | submission adds exactly the fresh job id and leaves every other job unchanged; it is a legal registry step and keeps the invariant |
| `Orchestrator.Started` | api_server/main.py:36 | only the addressed task changes, to `processing`; every other task and job is unchanged; from `pending` this is a legal step that keeps the invariant |
| `Orchestrator.Settle` | api_server/main.py:41-46 | the task ends terminal: `completed` exactly on success, with URL `/downloads/<job>/<basename>` and the error untouched; otherwise `failed` with `error = str(outcome)` and the URL untouched |
| `Orchestrator.Finished` | api_server/main.py:41-46 | only the addressed task is settled; nothing else in the registry changes; from `processing` this is a legal step that keeps the invariant |
| `Orchestrator.StatusNeverRegresses` | api_server/main.py:36-46 | along any run of legal steps a task never leaves the registry, its status never moves back, and once terminal its record never changes |
| `Orchestrator.Registry.constructor` | api_server/main.py:14 | the registry starts empty |
| `Orchestrator.Registry.Submit` | api_server/main.py:49-65 | the fan-out loop leaves the registry equal to `Submitted` and returns the `Schedule` of dispatches |
| `Orchestrator.Registry.Start` | api_server/main.py:34-36 | the registry becomes `Started`: a legal step that keeps the invariant |
| `Orchestrator.Registry.Finish` | api_server/main.py:38-46 | the registry becomes `Finished`: a legal step that keeps the invariant |
| `StatusFeed.FeedFrom` | api_server/main.py:70-83 | the feed never reads past its polls; it ends only at a poll that finds the job missing or done; an unknown job yields exactly one error record `Job ID no encontrado` and ends |
| `StatusFeed.Subscribe` | api_server/main.py:67-79 | starting with nothing sent, the first poll of a known job always yields it, and the feed ends only at a poll that finds the job missing or with all of its (at least one) tasks terminal |
| `StatusFeed.DoneIsFinal` | api_server/main.py:77-78 | a job that passes the stop test is final: along any run of legal registry steps it keeps exactly the same record, so stopping there misses no later change |
| `StatusFeed.FeedFromCharacterized` | api_server/main.py:70-83 | the feed stops at the first poll where the job is missing or done; each poll yields the error record, a changed snapshot, or nothing |
| `StatusFeed.SubscribeCharacterized` | api_server/main.py:67-84 | the first poll of a known job always yields its snapshot; a later poll yields exactly when the job differs by value from the previous poll; the feed ends exactly at the first poll that finds the job missing or with all of its (at least one) tasks terminal |
| `StatusFeed.StopsWithinOnePoll` | api_server/main.py:77-79 | the feed has ended by the first poll that sees the job done or missing |
| `StatusFeed.NoRepeatedSnapshot` | api_server/main.py:72-76 | no yield repeats the previous one |
| `StatusFeed.LatestYieldIsCurrent` | api_server/main.py:72-76 | at any poll before the end, the most recent yield shows the job exactly as that poll saw it |
| `StatusFeed.FinalStateDelivered` | api_server/main.py:72-79 | when the feed ends on a finished job, the last thing it yielded is that finished job |
| `StatusFeed.StatusStream` | api_server/main.py:67-84 | the generator loop with `last_state` and `initial_sent` yields and stops exactly as `Subscribe` |
| `StatusFeed.LastOutcomeFinishesJob` | api_server/main.py:77-78 | recording the outcome of the last non-terminal task makes the job done, so its feed stops |
| `StatusFeed.NewJobNotDone` | api_server/main.py:77-78 | a freshly submitted job is not done |
| `Scenario.RunInOrder` | api_server/main.py:34-64 | the server's schedule, `480p` run to its end before `720p` starts, for any worker answers: every stage is a legal step, the two tasks are never `processing` together, the job is done only at the end, and each task ends as `Settle` of its answer |
| `Scenario.RunOutOfOrder` | api_server/main.py:34-46 | a schedule the design allows and the code never produces: after submission and both starts, `720p` failing (`bad resolution` standing for the rendered reply) and then `480p` succeeding; the job ends with `480p` completed with its URL and `720p` failed with that error |
| `Scenario.FeedOverProgress` | api_server/main.py:72-79 | four polls that each change the job, finishing it on the last poll, yield four snapshots and end the feed |
| `Scenario.OutOfOrderCompletion` | api_server/main.py:67-84 | watching that design-only run yields four snapshots; the third shows `720p` failed while `480p` is still processing; the last is the finished job |

## Left out

- The gRPC call in `process_video_blocking`: the channel, stub, request and 30-second timeout (api_server/main.py:16-32). Its result is the abstract `Outcome`. A timeout is one `Raised` text among others.
- The worker node (worker_node/worker.py). It runs ffmpeg and maps the exit status to `{success, message}`. Both are absorbed into `Outcome`.
- The exact `str()` rendering of a protobuf response or an exception. It is carried as the opaque `rendered` text.
- File I/O in `upload_video`: creating the upload directory and writing the uploaded bytes (api_server/main.py:53-56). The model therefore has no error path for a failed write.
- UUID generation (api_server/main.py:50, 60). The ids are parameters.
- asyncio scheduling: `add_task`, `run_in_executor` and the one-second sleep. The model has no concurrency and no timing. `Start` and `Finish` are atomic steps, and the feed sees the registry only as the sequence of states it polls.
- The order of one job's dispatches (api_server/main.py:64). The request's background tasks run one after another in table order, so `480p` ends before `720p` starts. The registry lets `Start` and `Finish` of different tasks interleave in any order. Its step and invariant lemmas therefore cover more schedules than the server produces. `Scenario.RunInOrder` follows the server's schedule, and `Scenario.RunOutOfOrder` shows one it never produces.
- The console logging at api_server/main.py:18, 28, 31 and 35. It changes no state.
- The feed's generator never ends on its own while a job stays unfinished. The model runs it over a finite sequence of polls.
- SSE framing, JSON encoding of events, and FastAPI routing (api_server/main.py:48, 74, 82, 86-88). An event carries the job value itself.
- Orchestrator.Registry.Start: requires the task to be `pending`, because the source dispatches each task exactly once. The source would also overwrite a task in any other state.
- Orchestrator.Registry.Finish: requires the task to be `processing`, for the same reason.
- The browser client (frontend/script.js) is not modelled. Its own completion check treats a job with no tasks as done, unlike the server.
