# Agent supervisor and Docker check: a Dafny model

This project models two parts of the Datadog agent in Dafny and proves properties about them.

The first part is the Windows agent supervisor (`windows_supervisor.py`). It:

- keeps four worker processes alive: the forwarder, the collector, dogstatsd and JMXFetch;
- restarts a worker that died, through a per-worker `ProcessWatchDog`;
- allows at most a fixed number of restarts in any hour, and permanently disables a worker that exceeds it;
- force-restarts the collector when its heartbeat pipe stays silent for too long (and, since nothing ever writes to that pipe, the pipe is always silent: see "## Findings");
- stops everything on request and logs the uptime.

The second part is the Docker check (`checks.d/docker_daemon.py`) and its cgroup discovery (`utils/dockerutil.py`). It:

- extracts and caches container and image tags;
- filters containers with exclude and include rules;
- counts running and stopped containers;
- asks for container sizes every fifth run;
- keeps a retry counter for missing cgroup mounts around its cgroup metrics, a branch that nothing in the code can reach (see "## Findings");
- aggregates and formats Docker events per image;
- locates the cgroup mount points in `/proc/mounts` and the directory layout of container cgroups.

Everything is a pure function over immutable datatypes. The environment enters as parameters:

- `now`: the clock;
- `ExitBehaviour`: how an OS process reacts to a terminate request;
- `Crash` events: an OS process exiting on its own;
- `pending`: the number of heartbeats waiting in the pipe (always 0 for the program as written, where the collector is never given the sending end);
- `matches(pattern, tag)`: `re.match`;
- `pathExists`: `os.path.exists`;
- the rows of `/proc/mounts`, already split on whitespace.

Python exceptions become `Result` failures, and missing dictionary keys become `Option`. Dictionary and set iteration order is left open:

- maps, sets and multisets where the order cannot matter;
- an arbitrary sequence where it can, as in `find_cgroup_filename_pattern`.

Modules:

| module | file | models |
|---|---|---|
| `Wrappers`, `Text` | `wrappers.dfy`, `text.dfy` | `Option`/`Result`; string helpers (`startswith`, `split(':', 1)`, `strip`, `os.path.join`) |
| `RestartLimiter` | `limiter.dfy` | the sliding-window deque of `ProcessWatchDog` |
| `ManagedProcess` | `process.dfy` | `DDProcess` and `JMXFetchProcess` |
| `Watchdog` | `watchdog.dfy` | `ProcessWatchDog.restart` |
| `Heartbeat` | `heartbeat.dfy` | `_check_collector_blocked` |
| `Supervisor` | `supervisor.dfy` | `AgentSupervisor`: construction, `run` loop, `stop` |
| `DockerTags` | `docker_tags.dfy` | `TAG_EXTRACTORS`, `_extract_tag_value`, `_get_tags`, `_is_container_running` |
| `DockerFilters` | `docker_filters.dfy` | `get_filters`, `_are_tags_filtered`, `_tags_match_patterns` |
| `DockerContainers` | `docker_containers.dfy` | the size-query counter, the counting loop, the cgroup retry counter |
| `DockerEvents` | `docker_events.dfy` | `_pre_aggregate_events`, `_format_events` |
| `CgroupMounts` | `cgroup_mounts.dfy` | `find_cgroup`, `get_mountpoints`, `find_cgroup_filename_pattern`, `_get_cgroup_file` |

Where the code's own names and the code's behaviour disagree, the model follows the behaviour:

- The supervisor sets `_MAX_JMXFETCH_RESTARTS = 3` (windows_supervisor.py:68) and never reads it, and passes `3` to `JMXFetchProcess` as its third argument. That argument is `enable`, not a restart maximum, so JMXFetch is enabled and every worker, JMXFetch included, keeps the default limit of five restarts an hour (`Supervisor.NewSupervisor`). A limit of three restarts an hour is proved about a limiter built with a maximum of three (`RestartLimiter.LimitOfThreeScenario`).
- The collector is force-restarted on the first poll where `_collector_failed_heartbeats > _max_failed_heartbeats` (windows_supervisor.py:135). Counting from a reset counter that is silent poll `threshold + 1`, not poll `threshold` (`Heartbeat.FirstForcedRestart`).

## Model

| member | source | states |
|---|---|---|
| RestartLimiter.MaxRestartsFrom | windows_supervisor.py:146-156 | a missing or zero maximum falls back to the default of 5; any other value is kept; the limit is never 0 |
| RestartLimiter.NewLimiter | windows_supervisor.py:149-156 | a new watchdog starts with an empty restart deque and a non-zero limit |
| RestartLimiter.Prune | windows_supervisor.py:170-173 | pruning drops exactly a prefix of the deque; every dropped timestamp is older than `now - 3600`; the first kept one is not |
| RestartLimiter.PruneSorted | windows_supervisor.py:170-173 | on a sorted deque, every timestamp that survives pruning lies inside the one-hour window |
| RestartLimiter.Admit | windows_supervisor.py:170-188 | a restart is granted iff fewer than the maximum restarts remain after pruning; a granted one appends `now`; a denied one records nothing; the reported attempt count is the pruned deque length |
| RestartLimiter.AdmitAllSpaced | windows_supervisor.py:170-188 | over any history of attempts with a clock that never goes back, the deque stays the in-window suffix of the granted restarts, and every granted restart saw fewer than the maximum in the hour before it |
| RestartLimiter.RestartWindowBound | windows_supervisor.py:141-188 | the rate limit itself: any two granted restarts at most 3600 s apart enclose at most `maxRestarts` granted restarts |
| RestartLimiter.DefaultLimitScenario | windows_supervisor.py:146-188 | with five restarts in the last hour a sixth is denied with five attempts reported; an hour later the oldest falls out and restarts resume |
| RestartLimiter.LimitOfThreeScenario | windows_supervisor.py:170-188 | with a maximum of three, three attempts inside one window are granted and a fourth is denied with three attempts reported |
| ManagedProcess.NewProcess | windows_supervisor.py:196-201 | a new process has no running OS process and has spawned nothing |
| ManagedProcess.Spawn | windows_supervisor.py:203-208 | a disabled process is left untouched; an enabled one ends up alive with one more spawn; spawning over a live handle abandons that process |
| ManagedProcess.Start | windows_supervisor.py:234-238 | the JMXFetch variant clears the exit file only when enabled and before spawning; otherwise it behaves as the plain start |
| ManagedProcess.Stop | windows_supervisor.py:210-222 | a process that is not running is left exactly as it was; a running one is not alive afterwards; it is killed iff it outlives the 3 s grace period; the JMXFetch variant writes the exit file first (lines 240-246) |
| ManagedProcess.Crash | windows_supervisor.py:227-228 | after the OS process exits, `is_alive` is false; the enabled flag, the counters, the exit file, the name, command and hook are unchanged; a worker that was never started is left exactly as it was |
| ManagedProcess.StopThenStartAbandonsNothing | windows_supervisor.py:191-194 | stop followed by start abandons no process; it leaves an enabled worker alive and a disabled one down |
| ManagedProcess.StartOnLiveAbandons | windows_supervisor.py:203-206 | starting a live process without stopping it abandons the running one, which is why `restart` stops first |
| Watchdog.NewWatchdog | windows_supervisor.py:149-156 | a watchdog wraps its process with an empty deque and the resolved maximum |
| Watchdog.Restart | windows_supervisor.py:177-194 | the limit is reached iff the pruned deque is full; then the process is disabled, nothing else changes and the message fields are reported; otherwise `now` is recorded, a live process is stopped first, an enabled process comes back alive with one more spawn, and a disabled one is left stopped without a spawn (lines 203-208) |
| Watchdog.RestartNeverEnables | windows_supervisor.py:177-194 | no restart re-enables or spawns a disabled process |
| Watchdog.RestartAbandonsNothing | windows_supervisor.py:188-194 | no restart, granted or denied, leaves a running process without an owner |
| Watchdog.DeniedRestartDisables | windows_supervisor.py:177-186 | a restart denied at the default limit disables the worker, reports five attempts in 3600 s with a maximum of 5, and does not touch the OS process |
| Heartbeat.CheckBlocked | windows_supervisor.py:128-138 | any number of pending heartbeats resets the counter without a restart; silence counts one more miss and forces a restart iff the count passes the threshold, resetting it; the counter never exceeds the threshold |
| Heartbeat.SilentPollsClosedForm | windows_supervisor.py:128-138 | after `n` silent polls from a counter `f`, `(f + n) / (threshold + 1)` forced restarts have fired and the counter is the remainder |
| Heartbeat.FirstForcedRestart | windows_supervisor.py:128-138 | from a reset counter, the first forced restart fires on silent poll `threshold + 1` and not before |
| Supervisor.NewSupervisor | windows_supervisor.py:59-86 | four watchdogs keyed by name, none running; dogstatsd is enabled by its setting and every other worker always; only JMXFetch has the exit-file hook; every limit is 5 an hour; the heartbeat threshold is derived from `check_freq` |
| Supervisor.Launch | windows_supervisor.py:107-116 | `run` records the start time, starts every enabled worker and leaves disabled ones untouched |
| Supervisor.PollOne | windows_supervisor.py:119-122 | a live or disabled worker is left alone; a dead enabled worker is either restarted, recording `now`, or disabled, and it stays enabled iff its pruned restart history is below the limit |
| Supervisor.PollAll | windows_supervisor.py:119-122 | every watchdog gets the liveness check on its own and the keys are kept |
| Supervisor.PollInOrderPollsEach | windows_supervisor.py:119-122 | the sequential loop over distinct keys changes exactly the enumerated watchdogs, each by one liveness check, and keeps the keys |
| Supervisor.PollOrderIrrelevant | windows_supervisor.py:119-122 | polling the watchdogs one after another, in any enumeration of the dictionary's keys, ends where `PollAll` does, so the iteration order does not matter |
| Supervisor.RestartIsSafe | windows_supervisor.py:177-194 | a restart never enables or spawns a disabled worker and never abandons a process |
| Supervisor.Tick | windows_supervisor.py:117-138 | once `running` is false the loop does nothing; an iteration keeps the set of workers, the start time and the threshold; every worker but the collector gets exactly its liveness check; the collector gets its liveness check and then, iff the hang check finds it blocked, a forced restart; the miss counter is the hang check's |
| Supervisor.TickCountsHeartbeats | windows_supervisor.py:124-138 | across one iteration a heartbeat resets the counter, silence below the threshold adds one, and the counter never passes the threshold |
| Supervisor.TickLeavesHealthyAlone | windows_supervisor.py:117-138 | live or disabled workers are untouched by an iteration; the collector is too, unless that iteration found it blocked |
| Supervisor.TickIsSafe | windows_supervisor.py:117-138 | no loop iteration enables or spawns a disabled worker or abandons a process |
| Supervisor.SilentCollectorRestartedOnPollAfterThreshold | windows_supervisor.py:128-138 | a live collector that is still silent when the counter is at the threshold is force-restarted through its watchdog, and the counter resets |
| Supervisor.StepIsSafe | windows_supervisor.py:117-138 | one poll of the loop, or one worker exiting on its own, never enables or spawns a disabled worker or abandons a process |
| Supervisor.DisabledIsAbsorbing | windows_supervisor.py:177-186 | over any run of polls and worker exits, a disabled worker stays disabled and is never spawned again |
| Supervisor.NeverAbandons | windows_supervisor.py:117-138 | over any run of polls and worker exits, no worker is started over its own still-running process |
| Supervisor.UptimeOf | windows_supervisor.py:100-105 | the logged hours, minutes and seconds add back up to the elapsed seconds, with minutes and seconds below 60 |
| Supervisor.UptimeDecomposes | windows_supervisor.py:100-102 | `secs / 3600` equals `(secs / 60) / 60` under flooring division, so the three fields decompose the uptime |
| Supervisor.TerminateAll | windows_supervisor.py:92-93 | every worker is down afterwards, with its limiter and enable flag kept; it reports not-running iff it was not alive, and otherwise a kill iff it outlives the grace period |
| Supervisor.Stop | windows_supervisor.py:88-105 | `stop` clears `running`, closes the null sink and leaves no worker alive; a worker reports a kill iff it outlives the grace period; a missing start time becomes the clock read by `stop` once the workers are terminated; the logged uptime is the elapsed time split into whole hours, minutes below 60 and seconds below 60 (`UptimeOf`) |
| Supervisor.UnfedPipeEndsCollector | windows_supervisor.py:128-138 | as written, with the pipe always silent: a forced restart at the limit disables the collector but leaves it running, and a later granted forced restart of the disabled collector stops it without starting it again |
| Supervisor.FedCollectorNeverRestarted | windows_supervisor.py:117-138 | with a heartbeat pending at every poll and no worker exiting, a live collector is never restarted or changed |
| Supervisor.StopTwiceIsHarmless | windows_supervisor.py:88-105 | a second `stop` terminates nothing and keeps the watchdogs and the start time of the first |
| DockerTags.ImageRef | checks.d/docker_daemon.py:50-51 | the image extractors read `Image` when present, else the first of `RepoTags`, raising `KeyError` or `IndexError` when that is missing or empty |
| DockerTags.ImageNameAndTagSplitReference | checks.d/docker_daemon.py:50-51 | `image_name` has no colon and, joined to `image_tag` by a colon, gives the reference back; a reference without a colon has a name but raises for the tag |
| DockerTags.ContainerNameChoice | checks.d/docker_daemon.py:53 | `container_name` is the suffix of the first name left once its run of leading slashes is removed, and does not itself start with a slash; with no names it is the first 11 characters of the id (all of a shorter id); a missing `Names` or `Id` raises `KeyError` |
| DockerTags.ExtractTagValue | checks.d/docker_daemon.py:243-257 | unsupported names give `None` and leave the cache alone; a cached value is returned as is; otherwise the stripped extractor result is returned and cached; a failing extractor caches nothing; cached entries are never replaced |
| DockerTags.ExtractTagValueIdempotent | checks.d/docker_daemon.py:243-257 | a second extraction returns the same value and leaves the entity unchanged |
| DockerTags.CachedValueIgnoresFields | checks.d/docker_daemon.py:251-257 | once cached, a tag no longer depends on the entity's API fields |
| DockerTags.FormatTag | checks.d/docker_daemon.py:239 | a tag is the name, a colon, and after the colon exactly the value, or the four letters "None" for no value |
| DockerTags.GetTags | checks.d/docker_daemon.py:235-257 | one tag per requested name, in order, each its name, a colon and the value cached for that name (or "None" for a name without extractor); every supported name ends up cached, and every newly cached value is the stripped extractor result of the entity's fields; tagging fails iff some supported requested name is uncached and its extractor raises; only the cache changes |
| DockerTags.GetTagsIdempotent | checks.d/docker_daemon.py:235-257 | tagging an entity again with the same names gives the same tags and changes nothing further |
| DockerTags.IsContainerRunning | checks.d/docker_daemon.py:227-233 | a container without a status raises `KeyError`; otherwise it is running iff its status starts with "Up" or "Restarting" |
| DockerTags.RunningStatusExamples | checks.d/docker_daemon.py:227-233 | "Up …" and "Restarting …" count as running; "Exited …" and "Created" do not |
| DockerFilters.RuleTagName | checks.d/docker_daemon.py:85 | a rule's tag name is its colon-free prefix, followed by a colon in the rule when the rule has one |
| DockerFilters.GetFilters | checks.d/docker_daemon.py:72-90 | filtering is off iff the exclude list is missing or empty; otherwise the pattern sets are the sets of rules, and the tag names are exactly the names of all exclude and include rules |
| DockerFilters.RuleTagNameOfTaggedRule | checks.d/docker_daemon.py:85 | a rule `name:pattern` filters on `name` whatever the pattern contains; a rule without a colon names itself |
| DockerFilters.RuleNamesAreFiltered | checks.d/docker_daemon.py:72-90 | with a non-empty exclude list, the tag name of every exclude and include rule is among the filtered tag names |
| DockerFilters.TagsMatchPatterns | checks.d/docker_daemon.py:292-297 | the nested loops with early exit answer true iff some pattern matches some tag, whatever order the set yields |
| DockerFilters.AreTagsFiltered | checks.d/docker_daemon.py:285-290 | a container is filtered iff some tag matches an exclude pattern and none matches an include pattern |
| DockerFilters.IncludeOverridesExclude | checks.d/docker_daemon.py:285-290 | a tag matching an include pattern prevents filtering whatever the exclude patterns say |
| DockerFilters.ExcludedWithoutIncludes | checks.d/docker_daemon.py:285-290 | without include rules, any exclude match filters the container |
| DockerContainers.SizeQueryStep | checks.d/docker_daemon.py:171-172 | sizes are asked for iff collection is on and the counter is 0; the counter steps through 0..4 and wraps |
| DockerContainers.SizeScheduleCadence | checks.d/docker_daemon.py:171-172 | over any number of runs, run `i` asks for sizes iff collection is on and `latest + i` is a multiple of 5, and the counter counts runs modulo 5 |
| DockerContainers.CountOne | checks.d/docker_daemon.py:198-217 | one loop iteration succeeds iff the container has a first name, a status and, when it is kept, an id; then the counter of its status gains its key and the other counter is unchanged; a kept container is indexed under its id and an excluded one leaves the index as it was |
| DockerContainers.CountContainers | checks.d/docker_daemon.py:174-225 | the loop fails iff some container lacks a field it reads; otherwise the running counter holds exactly the keys of the running containers and the stopped counter exactly those of the others, excluded or not, and only non-excluded containers are indexed by id |
| DockerContainers.StatusSplitsKeys | checks.d/docker_daemon.py:198-210 | when every container can be counted, the running and stopped keys together are the keys of all containers, each once |
| DockerContainers.IndexHoldsNoExcluded | checks.d/docker_daemon.py:211-217 | `containers_by_id` never holds an excluded container |
| DockerContainers.CgroupRetryStep | checks.d/docker_daemon.py:340-357 | success resets the retry counter; a missing mount raises iff more than three failures are on record and otherwise counts one more |
| DockerContainers.RetriesCountTrailingFailures | checks.d/docker_daemon.py:340-357 | the counter is the current run of failures capped at 4, and the exception is raised iff that run has reached 5 |
| DockerContainers.ReportCgroupAsWritten | checks.d/docker_daemon.py:340-357 | as written, one call never re-raises: a completed `try` block resets the counter through the `else` branch, and the only exceptions the block can raise (`KeyError`, `ValueError`) pass the handler by and leave the counter alone |
| DockerContainers.AsWrittenRetriesStayZero | checks.d/docker_daemon.py:340-357 | as written, over any sequence of calls, whatever each `try` block does, the counter stays 0 and no call counts a retry or re-raises |
| DockerEvents.Aggregate | checks.d/docker_daemon.py:412-424 | an image has a group iff some kept event comes from it, and its group is its kept events newest first |
| DockerEvents.PreAggregateAsWritten | checks.d/docker_daemon.py:412-424 | as written, an image's group is its events newest first, less those whose `containers_by_id.get(id, {})` entry carries the `_is_filtered` mark (`MarkedInIndex`, line 417) |
| DockerEvents.AsWrittenDropsNoContainer | checks.d/docker_daemon.py:191-217 | with the index the counting loop returns, the as-written aggregation drops no event for its container |
| DockerEvents.PreAggregate | checks.d/docker_daemon.py:412-424 | corrected: the events of excluded containers are dropped and the rest aggregated newest first per image |
| DockerEvents.ExcludedContainerEventReported | checks.d/docker_daemon.py:412-424 | one excluded container with one event: as written the event is reported under its image, as intended nothing is |
| DockerEvents.ChangeName | checks.d/docker_daemon.py:435-437 | an unindexed container is labelled by the first 11 characters of its id (all of a shorter id); an indexed one by the infix of its first name left once the runs of slashes at both ends are removed; a missing `Names` raises `KeyError` and an empty one `IndexError` |
| DockerEvents.FormatGroup | checks.d/docker_daemon.py:429-438 | a group formats iff every event has a label; then the timestamp is the newest event time (never below 0), the status counts are the multiset of statuses, and there is one change per event in order |
| DockerEvents.FormatEvents | checks.d/docker_daemon.py:426-464 | one formatted event per image, or none at all if any group fails; each carries the newest time of its group, the multiset of its statuses and one labelled change per event, in order |
| DockerEvents.FormatWithCountedIndex | checks.d/docker_daemon.py:198-217 | against the index built by the counting loop, formatting never fails |
| CgroupMounts.CgroupRows | utils/dockerutil.py:19-20 | the filter raises iff some row has fewer than three fields; otherwise every kept row is a `cgroup` row of the table and every `cgroup` row is kept |
| CgroupMounts.CgroupRowsSnoc | utils/dockerutil.py:19-20 | one more row is appended to the kept rows iff its type is `cgroup` |
| CgroupMounts.CgroupRowsConcat | utils/dockerutil.py:19-20 | the kept rows of two tables joined are the kept rows of the first followed by those of the second, so the filter keeps order and multiplicity |
| CgroupMounts.ScanFindsPreferred | utils/dockerutil.py:29-38 | the loop returns the first `/host/` mount of the hierarchy, else its last mount, else raises |
| CgroupMounts.FindCgroup | utils/dockerutil.py:13-38 | a short row raises; no cgroup mount raises; a single cgroup mount is used whatever the hierarchy; several follow the selection rule; the result is joined to the root |
| CgroupMounts.MountsFileIgnoresRoot | utils/dockerutil.py:18 | the mount table is always `/proc/mounts`, because joining an absolute path drops the root |
| CgroupMounts.FindCgroupIgnoresRoot | utils/dockerutil.py:13-38 | with absolute mount points, `docker_root` has no effect on the answer |
| CgroupMounts.ScanReturnsRowMount | utils/dockerutil.py:29-38 | whatever the loop returns is the mount point of one of the rows |
| CgroupMounts.GetMountpoints | checks.d/docker_daemon.py:66-70 | it succeeds iff every metric hierarchy has a mount point, and then maps memory, cpuacct and blkio to them; otherwise it fails with the error of the first hierarchy, in memory, cpuacct, blkio order, that has none |
| CgroupMounts.LayoutAt | utils/dockerutil.py:43-52 | a mount point shows the lxc layout iff `lxc` exists; docker iff `docker` exists and `lxc` does not; system.slice iff only `system.slice` exists |
| CgroupMounts.FindCgroupFilenamePattern | utils/dockerutil.py:40-54 | it raises iff no mount point shows a layout; otherwise it returns the layout of the first mount point that shows one |
| CgroupMounts.CgroupFilePath | checks.d/docker_daemon.py:468-475 | a cgroup stat file lies below its hierarchy's mount point, starts with the layout's directory followed by the container id, and ends with the layout's suffix (`.scope` for system.slice, nothing otherwise) followed by the file name, as the patterns of utils/dockerutil.py:46-52 lay it out |
| CgroupMounts.CgroupFilePathInjective | checks.d/docker_daemon.py:468-475 | for one mount point, layout and file, two containers with different ids read different paths |

## Left out

- Operating-system and library effects are not modelled: psutil, `multiprocessing.Pipe`, the Windows service wrapper, signal handling and logging. They become parameters (`ExitBehaviour`, `pending`, `now`) or are dropped.
- A failing `psutil.Popen` is not modelled: a spawn always yields a running process.
- Time is an integer. `restart` reads the clock twice, once to prune and once to record; the model uses one `now` for both.
- RestartLimiter.RestartWindowBound: assumes the clock never goes backwards (a `requires` on sorted attempt times). A wall clock can go backwards, and then the bound does not hold.
- Supervisor.Stop: does not state the order in which workers are terminated. The code iterates a dictionary, so the "reverse order" its comment mentions is not guaranteed either.
- The supervisor's `_MAX_JMXFETCH_RESTARTS` and `_count_jmxfetch_restarts` are never read, so they are not modelled.
- The Docker API client and the ECS tag lookup are outside the model. Each listed container arrives with its final tag list and its `_is_filtered` mark.
- `_filter_containers`, the glue that computes that mark with `_get_tags` and `_are_tags_filtered`, is outside the model.
- DockerContainers.CountContainers: the tag extraction inside the loop is taken as already done, so its `KeyError`s and `IndexError`s are stated by the failure condition of `DockerTags.GetTags` and not repeated here.
- Regular expressions stay abstract (`matches`), and a pattern that fails to compile is not modelled.
- These functions of the Docker check are outside the model: `_count_and_weight_images`, `_report_image_size`, `_report_container_size`, `_crawl_container_pids`, `_report_performance_metrics`, `_report_net_metrics`, `_parse_cgroup_file`, `_parse_blkio_metrics`, `_get_events` and `_process_events`.
- The one exception to that: the retry counter of `_report_cgroup_metrics` is modelled.
- Event message text is not modelled: the title, the body, the per-status text and the host name. `FormatEvents` keeps what they are built from: the newest timestamp, the status counts and the ordered changes.
- An `include` key that is present but null is read as an empty list. In Python that iteration would raise.
- `find_cgroup` takes the mount table as rows already split on whitespace. Reading and splitting `/proc/mounts` is not modelled.
- CgroupMounts.FindCgroup: its selection rule is stated for rows of exactly six fields. Other row lengths raise in the loop's tuple unpacking, and that is covered by `Scan` but not by the contract.

## Findings

| source | as written | input that shows it | evidently intended | confidence | as-written member | corrected member |
|---|---|---|---|---|---|---|
| windows_supervisor.py:59 | the pipe's sending end is created and kept by the supervisor; the collector is started as a separate command (lines 77-79) and never receives it, so `poll()` at line 129 is always false | a collector that runs normally and is alive at every poll | the collector sends heartbeats, and only a collector that stops sending them is restarted | not executed | Supervisor.UnfedPipeEndsCollector | Supervisor.FedCollectorNeverRestarted |
| checks.d/docker_daemon.py:349 | nothing in the `try` block at lines 342-348 raises `MountException`: a missing stat file is an `IOError` that `_parse_cgroup_file` swallows (lines 486-488), and `MountException` is raised only by `find_cgroup_filename_pattern` in the constructor, so the retry branch is dead | a container whose cgroup directory disappeared after the API listed it | a run that cannot find the cgroup files counts a retry and raises after more than three | not executed | DockerContainers.AsWrittenRetriesStayZero | DockerContainers.CgroupRetryStep |
| checks.d/docker_daemon.py:417 | the exclusion test looks the event's container up in `containers_by_id`, but `_get_and_count_containers` skips excluded containers before indexing them (line 213), so the lookup never finds the `_is_filtered` mark | one container excluded by the filter rules, and one Docker event for it with a `from` image | events of excluded containers are dropped, as the comment on line 416 says | not executed | DockerEvents.ExcludedContainerEventReported | DockerEvents.PreAggregate |
