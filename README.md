# docker-env registry, modelled in Dafny

docker-env drives a container engine for a developer's projects. Its `registry`
package does two things.

- **Lifecycle orchestration.** It starts, stops, restarts, removes and builds
  projects. It opens a terminal or an editor inside a project's service. It keeps
  the single-active-project rule: before a start or a restart it stops every
  other running project. Those stops are best effort: a stop that fails is logged
  as a warning and the loop carries on.
- **The container listing.** It decodes the engine's raw records all or nothing.
  When there is at least one container it writes a header and one five-column row
  per container: name, project, service, coloured state and creation time.

The model has five modules.

- `Basics`: `Option` and `Result`.
- `Engine`: the engine as the registry sees it.
  - Every call is a `Command` appended to a trace.
  - Whether the call at trace position k succeeds, and what a successful query
    at k returns, is read off an `Oracle`. So every engine behaviour, including
    every failure point, is some oracle.
  - A successful command changes a running/stopped map. `RunSeq` issues a fixed
    plan of steps and stops at the first failure.
- `Lifecycle`: each operation of `registry.go` as a function from the oracle and
  the world before the call to `(error, world after)`. The lemmas state the
  registry's rules about these functions.
- `Listing`: decoding, cells, rows, the state colouring, and the timestamp
  formatter with a reader for its output. It also has the listing as a function
  to `(error, world, rows written)`.
- `Registry`: the program as written, in imperative form.
  - A `Registry` class holds the configuration, the engine runner, the foreign
    library and the screen.
  - Its methods follow the Go code step by step: early returns, the stop loop
    that continues past failures, the search loop, the decode loop with early
    abort, and the row-writing loop.
  - `Terminal` and `Code` update the `Project` object's service in place.
  - Each method is proved to leave the runner, the screen and the project
    exactly as the matching `Lifecycle` or `Listing` function says.

## Model

| member | source | states |
|---|---|---|
| Engine.RunSeqAbortsAtFirstFailure | registry/registry.go:48-75 | In a fixed plan, exactly the steps up to and including the first failing one are issued. The error is that step's, and only the steps before it take effect. With no failure, every step is issued and the result is success. |
| Engine.RunSeqTrace | registry/registry.go:53-74 | The commands a plan issues are its prefix that ends at the first failing step. |
| Engine.RunSeqOutcome | registry/registry.go:53-74 | A plan's result is the error of its first failing step, or none. Running a plan never logs a warning. |
| Engine.RunSeqStatus | registry/registry.go:53-74 | Only the steps before the first failure change the running/stopped map. |
| Lifecycle.ProjectExistsSearchesAllProjects | registry/registry.go:32-46 | The check queries all projects, stopped ones included. It answers true iff some listed project has the target's name. A failed query is the check's error. |
| Lifecycle.TargetsExactly | registry/registry.go:85-93 | A project is among those to stop iff it is listed, not named like the target, and running. |
| Lifecycle.TargetsInListingOrder | registry/registry.go:85-93 | For every prefix of the listing, the projects to stop are those of its stoppable entries: one per entry, in listing order, with duplicates kept. |
| Lifecycle.StopOthersStopsExactlyTheOthers | registry/registry.go:77-100 | After a successful listing the step succeeds. Every command issued after the listing is a stop of a listed running project other than the target, and every such stop is issued. The target is never stopped. The commands after the listing are exactly the stops of the projects to stop, in listing order. |
| Lifecycle.StopOthersFailsOnlyOnListing | registry/registry.go:79-83 | The step fails iff the listing fails, with the listing's error. Nothing else is then issued and the map is unchanged. |
| Lifecycle.FailedStopsExactly | registry/registry.go:93-96 | Every failed stop, and only a failed stop, has its "could not stop" warning, so a failed stop does not end the loop. |
| Lifecycle.FailedStopsInOrder | registry/registry.go:93-96 | The warnings are exactly one "could not stop" per failed stop, in the order the stops were issued. A project stopped twice that fails twice is warned about twice. |
| Lifecycle.AfterStopsExactly | registry/registry.go:93-96 | A project ends up stopped exactly when one of its stops succeeded. Every other project keeps its state. |
| Lifecycle.StopsLeaveOnlyTarget | registry/registry.go:85-97 | When the listing names every running project and every stop succeeds, no project other than the target is left running. |
| Lifecycle.StartProjectOrder | registry/registry.go:48-75 | A start first stops the other active projects; a failed listing is its error. Then it runs the pre-start hook, the AWS login when configured, create+start and the post-start hook, in order. The first failure is the result and nothing after it is issued. |
| Lifecycle.StartLogsInOnlyWhenConfigured | registry/registry.go:58-64 | The AWS login is issued only when the configuration asks for it. |
| Lifecycle.OnlyListedIssued | registry/registry.go:49-51 | Stopping the others and then running a plan issues only the listing, stops and the plan's own commands. |
| Lifecycle.ApplyStartSteps | registry/registry.go:53-74 | When the start plan succeeds, the target is running and nothing else changes. Hooks and the login change no project's state. |
| Lifecycle.StartLeavesOnlyTargetRunning | registry/registry.go:48-75 | The single-active-project rule: when the listing is faithful and every stop succeeds, a successful start leaves the target running and no other project running. |
| Lifecycle.GuardedSkipsMissingTarget | registry/registry.go:105-112 | On a missing target, a check-guarded operation issues only the check, logs "not found" and succeeds. The map is unchanged. |
| Lifecycle.GuardedFailsOnCheck | registry/registry.go:105-108 | A failed existence check is the guarded operation's error. Only the check is issued, and no warning is logged. |
| Lifecycle.StopRemoveFailOnCheck | registry/registry.go:102-108 | Stop and remove return a failed existence check as their error. No stop, hook or remove is issued, and nothing else changes. |
| Lifecycle.StopProjectMissingIsNoOp | registry/registry.go:102-112 | Stopping a missing project succeeds. Only queries are issued, so there is no stop and no post-stop hook, and one "not found" warning is logged. |
| Lifecycle.RemoveProjectMissingIsNoOp | registry/registry.go:144-154 | Removing a missing project succeeds. Only queries are issued, so there is no remove, and one "not found" warning is logged. |
| Lifecycle.StopProjectRunsHookOnlyAfterStop | registry/registry.go:114-120 | A failed stop is the result and no hook is issued. After a successful stop the post-stop hook runs, and its outcome is the result. |
| Lifecycle.RestartStopsOthersEvenWhenMissing | registry/registry.go:123-138 | A restart stops the other active projects before the existence check. When the target is missing it succeeds, issues no restart command, and adds one "not found" warning after the stops' warnings. |
| Lifecycle.RestartFailsOnQuery | registry/registry.go:123-133 | A failed active listing is the restart's error before anything is stopped. A failed existence check after the stops is the error, and no restart is issued. |
| Lifecycle.RestartLeavesOnlyTargetRunning | registry/registry.go:123-142 | A successful restart leaves no project other than the target running, under the same conditions as start. |
| Lifecycle.RestartExistingIssuesRestart | registry/registry.go:123-142 | After the stops, when the target exists, the existence query is followed by exactly one restart. Its outcome is the result, no warning is added after the stops, and a successful restart sets the target running. |
| Lifecycle.RemoveExistingIssuesRemove | registry/registry.go:144-158 | When the target exists, the existence query is followed by exactly one remove. Its outcome is the result, no warning is logged, and a successful remove forgets the project. |
| Lifecycle.BuildProjectIsUnguarded | registry/registry.go:160-164 | Building issues exactly one build command and no existence check. Its result is that command's. |
| Lifecycle.TerminalResolvesDefaults | registry/registry.go:166-182 | The shell opens in the given service and runs the given command. Each is replaced by its configured default only when empty. The result is that command's. No warning is logged and no project's state changes. |
| Lifecycle.CodeResolvesDefaults | registry/registry.go:184-208 | The editor looks up the container of the given service, or the default service. It opens that container in the given directory, or the default one. If no container is found it logs a warning, opens nothing and succeeds. A failed lookup is the error. Otherwise the result is the editor command's. No project's state changes. |
| Listing.FirstUndecodable | registry/containers.go:75-81 | Returns the index of the first record that does not decode; every record before it decodes. |
| Listing.DecodeAll | registry/containers.go:72-87 | Decoding succeeds iff every record decodes. It then yields one container per record in record order. Otherwise it fails on the first record that does not decode and yields no containers. |
| Listing.ColorState | registry/containers.go:89-96 | The state text is kept unchanged. The cell is green iff the state is exactly "running", and plain otherwise. |
| Listing.ReadRender | registry/containers.go:104 | The `2006-01-02 15:04` rendering reads back as the parsed time to the minute, so it drops the seconds and the zone. |
| Listing.FormatTimeReadsBack | registry/containers.go:98-105 | Text the parser rejects is shown unchanged. A parsed time is shown as a `YYYY-MM-DD HH:MM` stamp of that time. |
| Listing.RowsOneEach | registry/containers.go:46-54 | There is one row per container, in container order. |
| Listing.ListContainersFailsBeforeWriting | registry/containers.go:24-28 | A failed query or an undecodable record is the listing's error, and then no row is written, not even the header. The listing issues only its one query. |
| Listing.ListContainersSilentWhenEmpty | registry/containers.go:29-31 | Zero records: the listing succeeds and writes nothing. |
| Listing.ListContainersWritesOneRowEach | registry/containers.go:33-56 | Otherwise the header comes first, then exactly one row per record in record order. Each row holds name, project, service, coloured state and formatted time. |
| Registry.Registry.ProjectExists | registry/registry.go:32-46 | The search loop gives exactly the existence check's answer and world. A failed query gives `(false, err)`. |
| Registry.Registry.StopOtherActiveProjects | registry/registry.go:77-100 | The loop, which continues past failed stops, leaves the runner exactly as the stop-others step says. |
| Registry.Registry.StartProject | registry/registry.go:48-75 | The early-return sequence gives exactly the start function's result and world. |
| Registry.Registry.StopProject | registry/registry.go:102-121 | Gives exactly the stop function's result and world. |
| Registry.Registry.RestartProject | registry/registry.go:123-142 | Gives exactly the restart function's result and world. |
| Registry.Registry.RemoveProject | registry/registry.go:144-158 | Gives exactly the remove function's result and world. |
| Registry.Registry.BuildProject | registry/registry.go:160-164 | Gives exactly the build function's result and world. |
| Registry.Registry.Terminal | registry/registry.go:166-182 | The project's service becomes the default when it was empty; the result and world are the terminal function's. |
| Registry.Registry.Code | registry/registry.go:184-208 | The project's service becomes the default when it was empty; the result and world are the editor function's. |
| Registry.Registry.CreateContainersFromJson | registry/containers.go:72-87 | The append loop with its early abort computes exactly the all-or-nothing decoding. |
| Registry.Registry.FetchContainers | registry/containers.go:61-70 | A failed query is the error. Otherwise the result is the decoding of the records returned. |
| Registry.Registry.WriteTable | registry/containers.go:33-56 | The header row, then one row per container in order, is appended to the screen. |
| Registry.Registry.ListContainers | registry/containers.go:24-59 | Gives exactly the listing function's result and world, and writes exactly its rows. |

## Left out

- The engine commands (`docker.DockerCmd`: command building, `Execute`, `ExecuteWithOutput`, `LoginAws`, `OpenCode`) are process I/O. Each is one command in the trace, and the oracle decides whether it succeeds.
- The hook scripts (`addons.RunScript`) are process I/O. Each is a `Hook` command that takes a trace position and may fail. The model does not force a hook with an empty script to succeed. What `RunScript` does with an empty script is not part of this model: if it treats it as a no-op, its runs are the oracles that let that hook succeed.
- `fetchProjects`, `ServiceContainer` and `Project.IsRunning` are not part of this model. They are queries whose answers come from the oracle: a listing with each project's running flag, and an optional container. The model assumes nothing about how a listing relates to the running/stopped map; the single-active-project lemmas take that as a hypothesis (`Faithful`).
- `Container.ProjectName` and `Container.ServiceName` are not part of this model. They are uninterpreted functions in `Listing.Library`, which makes them pure by construction.
- `json.Unmarshal` is an uninterpreted `decode` function. `time.Parse` against the layout `2006-01-02 15:04:05 -0700 MST` is an uninterpreted `parseTime` function. It yields fields in their calendar ranges (years 0 to 9999), and `Format` is modelled on those fields.
- The running/stopped map is the model's own account of the engine. The effect of each command on it (start/restart set running, stop sets stopped, remove deletes) is a modelling choice, because the registry never reads it directly.
- Go error values become `Failed(trace position)` or `BadRecord(index)`. The error text is not modelled.
- Logging is not modelled beyond warnings. Info and debug lines are left out. Each warning is a tag (`CouldNotStop`, `NotFound`) naming the project, without its text; "does not exist" and "not found" are both `NotFound`.
- `helpers.*Text` colouring becomes a cell style (`Bold`, `Normal`, `Green`) without escape codes.
- `text/tabwriter` alignment, its constants and `Flush` are not modelled. A row is its five cells.
- A nil slice and an empty slice are both the empty sequence. This is safe because, on success, `createContainersFromJson` returns nil exactly when there are no records. Its nil on a decode error comes with the error and is never used.
- `NewDockerProjectRegistry` and `Config()` are wiring. The `Registry` constructor takes its parts directly.
- `Project.String` is not part of this model. The bodies of `SetServiceName` and `IsServiceDefined` are not part of it either: `Registry.Project` assumes that a service is defined iff it is non-empty, and that setting it replaces it.
