/**
 * The registry as the program runs it: an object holding the configuration and
 * the engine runner, whose methods perform the lifecycle operations and the
 * container listing step by step, returning at the first error. Each method is
 * proved to leave the runner (and the screen, for the listing) exactly as the
 * matching function of `Lifecycle` or `Listing` says.
 */
module Registry {
  import opened Basics
  import opened Engine
  import L = Lifecycle
  import LS = Listing

  /** A caller's handle on a project; the selected service can be changed in place. */
  class Project {
    const name: string
    var service: string

    constructor (name: string, service: string)
      ensures this.name == name && this.service == service
    {
      this.name := name;
      this.service := service;
    }

    function Handle(): Ref
      reads this
    {
      Ref(name, service)
    }

    predicate IsServiceDefined()
      reads this
    {
      service != ""
    }

    method SetServiceName(s: string)
      modifies this
      ensures service == s
    {
      service := s;
    }
  }

  /** Standard output, as the rows written to it. */
  class Screen {
    var rows: seq<LS.Row>

    constructor ()
      ensures rows == []
    {
      rows := [];
    }

    method Write(r: LS.Row)
      modifies this
      ensures rows == old(rows) + [r]
    {
      rows := rows + [r];
    }
  }

  class Registry {
    const config: L.Config
    const runner: Runner
    const lib: LS.Library
    const out: Screen

    constructor (config: L.Config, runner: Runner, lib: LS.Library, out: Screen)
      ensures this.config == config && this.runner == runner && this.lib == lib && this.out == out
    {
      this.config := config;
      this.runner := runner;
      this.lib := lib;
      this.out := out;
    }

    /** Searches all projects, stopped ones included, for the name; a failed query gives `(false, err)`. */
    method ProjectExists(p: Project) returns (found: bool, err: Option<Error>)
      modifies runner
      ensures err.Some? ==> !found
      ensures (if err.Some? then Err(err.value) else Ok(found), runner.State())
              == L.ProjectExists(runner.oracle, old(runner.State()), p.Handle())
    {
      var q := runner.FetchProjects(true);
      if q.Err? {
        return false, Some(q.error);
      }
      var projects := q.value;
      ghost var w1 := runner.State();
      for i := 0 to |projects|
        invariant runner.State() == w1
        invariant !L.Named(projects[..i], p.name)
      {
        if projects[i].project.name == p.name {
          return true, None;
        }
        assert projects[..i + 1] == projects[..i] + [projects[i]];
      }
      assert projects[..|projects|] == projects;
      return false, None;
    }

    /** Stops every listed running project not named like `p`, logging the stops that fail. */
    method StopOtherActiveProjects(p: Project) returns (err: Option<Error>)
      modifies runner
      ensures (err, runner.State()) == L.StopOtherActiveProjects(runner.oracle, old(runner.State()), p.name)
    {
      var q := runner.FetchProjects(false);
      if q.Err? {
        return Some(q.error);
      }
      var activeProjects := q.value;
      ghost var w1 := runner.State();
      for i := 0 to |activeProjects|
        invariant runner.State() == L.AfterStopping(runner.oracle, w1, L.Targets(p.name, activeProjects[..i]))
      {
        ghost var ts := L.Targets(p.name, activeProjects[..i]);
        var ap := activeProjects[i];
        assert activeProjects[..i + 1][..i] == activeProjects[..i];
        assert activeProjects[..i + 1][i] == ap;
        if ap.project.name == p.name || !ap.running {
          assert L.Targets(p.name, activeProjects[..i + 1]) == ts;
          continue;
        }
        assert L.Targets(p.name, activeProjects[..i + 1]) == ts + [ap.project];
        L.StopOneExtends(runner.oracle, w1, ts, ap.project);
        var e := runner.Execute(Stop(ap.project));
        if e.Some? {
          runner.Warn(CouldNotStop(ap.project));
        }
      }
      assert activeProjects[..|activeProjects|] == activeProjects;
      return None;
    }

    method StartProject(p: Project, recreate: bool, update: bool) returns (err: Option<Error>)
      modifies runner
      ensures (err, runner.State())
              == L.StartProject(config, runner.oracle, old(runner.State()), p.Handle(), recreate, update)
    {
      err := StopOtherActiveProjects(p);
      if err.Some? {
        return;
      }
      ghost var spec := L.StartProject(config, runner.oracle, old(runner.State()), p.Handle(), recreate, update);
      ghost var rest := L.StartSteps(config, p.Handle(), recreate, update);
      assert spec == RunSeq(runner.oracle, runner.State(), rest);

      assert rest[0] == Hook(PreStart, config.preStartScript);
      err := runner.Execute(Hook(PreStart, config.preStartScript));
      if err.Some? {
        return;
      }
      rest := rest[1..];
      assert spec == RunSeq(runner.oracle, runner.State(), rest);

      if config.awsLogin {
        assert rest[0] == AwsLogin;
        err := runner.Execute(AwsLogin);
        if err.Some? {
          return;
        }
        rest := rest[1..];
        assert spec == RunSeq(runner.oracle, runner.State(), rest);
      }

      assert rest == [CreateAndStart(p.Handle(), recreate, update), Hook(PostStart, config.postStartScript)];
      err := runner.Execute(CreateAndStart(p.Handle(), recreate, update));
      if err.Some? {
        return;
      }
      rest := rest[1..];
      assert spec == RunSeq(runner.oracle, runner.State(), rest);
      RunSeqSingle(runner.oracle, runner.State(), rest[0]);
      err := runner.Execute(Hook(PostStart, config.postStartScript));
    }

    method StopProject(p: Project) returns (err: Option<Error>)
      modifies runner
      ensures (err, runner.State()) == L.StopProject(config, runner.oracle, old(runner.State()), p.Handle())
    {
      var found, e := ProjectExists(p);
      if e.Some? {
        return e;
      }
      if !found {
        runner.Warn(NotFound(p.Handle()));
        return None;
      }
      err := runner.Execute(Stop(p.Handle()));
      if err.Some? {
        return;
      }
      RunSeqSingle(runner.oracle, runner.State(), Hook(PostStop, config.postStopScript));
      assert [Stop(p.Handle()), Hook(PostStop, config.postStopScript)][1..] == [Hook(PostStop, config.postStopScript)];
      err := runner.Execute(Hook(PostStop, config.postStopScript));
    }

    method RestartProject(p: Project) returns (err: Option<Error>)
      modifies runner
      ensures (err, runner.State()) == L.RestartProject(runner.oracle, old(runner.State()), p.Handle())
    {
      err := StopOtherActiveProjects(p);
      if err.Some? {
        return;
      }
      var found, e := ProjectExists(p);
      if e.Some? {
        return e;
      }
      if !found {
        runner.Warn(NotFound(p.Handle()));
        return None;
      }
      RunSeqSingle(runner.oracle, runner.State(), Restart(p.Handle()));
      err := runner.Execute(Restart(p.Handle()));
    }

    method RemoveProject(p: Project) returns (err: Option<Error>)
      modifies runner
      ensures (err, runner.State()) == L.RemoveProject(runner.oracle, old(runner.State()), p.Handle())
    {
      var found, e := ProjectExists(p);
      if e.Some? {
        return e;
      }
      if !found {
        runner.Warn(NotFound(p.Handle()));
        return None;
      }
      RunSeqSingle(runner.oracle, runner.State(), Remove(p.Handle()));
      err := runner.Execute(Remove(p.Handle()));
    }

    method BuildProject(p: Project, noCache: bool) returns (err: Option<Error>)
      modifies runner
      ensures (err, runner.State()) == L.BuildProject(runner.oracle, old(runner.State()), p.Handle(), noCache)
    {
      RunSeqSingle(runner.oracle, runner.State(), Build(p.Handle(), noCache));
      err := runner.Execute(Build(p.Handle(), noCache));
    }

    /** Opens a shell; the project keeps the default service it may have been given. */
    method Terminal(p: Project, cmd: string) returns (err: Option<Error>)
      modifies runner, p
      ensures p.service == L.Resolve(old(p.service), config.terminalDefaultService)
      ensures (err, runner.State()) == L.Terminal(config, runner.oracle, old(runner.State()), old(p.Handle()), cmd)
    {
      if !p.IsServiceDefined() {
        p.SetServiceName(config.terminalDefaultService);
      }
      var command := cmd;
      if command == "" {
        command := config.terminalDefaultCommand;
      }
      RunSeqSingle(runner.oracle, runner.State(), Shell(p.Handle(), command));
      err := runner.Execute(Shell(p.Handle(), command));
    }

    /** Opens the editor in the service's container; the project keeps its defaulted service. */
    method Code(p: Project, dir: string) returns (err: Option<Error>)
      modifies runner, p
      ensures p.service == L.Resolve(old(p.service), config.vscodeDefaultService)
      ensures (err, runner.State()) == L.Code(config, runner.oracle, old(runner.State()), old(p.Handle()), dir)
    {
      if !p.IsServiceDefined() {
        p.SetServiceName(config.vscodeDefaultService);
      }
      var directory := dir;
      if directory == "" {
        directory := config.vscodeDefaultDir;
      }
      var q := runner.ServiceContainer(p.Handle());
      if q.Err? {
        return Some(q.error);
      }
      if q.value.None? {
        runner.Warn(NotFound(p.Handle()));
        return None;
      }
      RunSeqSingle(runner.oracle, runner.State(), OpenEditor(q.value.value, directory));
      err := runner.Execute(OpenEditor(q.value.value, directory));
    }

    /** Decodes every record, giving up on all of them at the first that does not decode. */
    method CreateContainersFromJson(jsonRecords: seq<string>) returns (r: Result<seq<LS.Container>, Error>)
      ensures r == LS.DecodeAll(lib.decode, jsonRecords)
    {
      var containers: seq<LS.Container> := [];
      for i := 0 to |jsonRecords|
        invariant |containers| == i
        invariant forall j :: 0 <= j < i ==> lib.decode(jsonRecords[j]) == Some(containers[j])
      {
        var c := lib.decode(jsonRecords[i]);
        if c.None? {
          return Err(BadRecord(i));
        }
        containers := containers + [c.value];
      }
      ghost var d := LS.DecodeAll(lib.decode, jsonRecords);
      assert d.Ok?;
      assert containers == d.value;
      return Ok(containers);
    }

    method FetchContainers() returns (r: Result<seq<LS.Container>, Error>)
      modifies runner
      ensures (r, runner.State()) == LS.FetchContainers(lib, runner.oracle, old(runner.State()))
    {
      var q := runner.FetchRecords();
      if q.Err? {
        return Err(q.error);
      }
      r := CreateContainersFromJson(q.value);
    }

    /** The table of a non-empty listing: the header, then one row per container in order. */
    method WriteTable(containers: seq<LS.Container>)
      modifies out
      ensures out.rows == old(out.rows) + ([LS.Header()] + LS.Rows(lib, containers))
    {
      out.Write(LS.Header());
      ghost var start := out.rows;
      for i := 0 to |containers|
        invariant out.rows == start + LS.Rows(lib, containers[..i])
      {
        var c := containers[i];
        var row := LS.Row(LS.Cell(LS.Normal, c.name),
                          LS.Cell(LS.Normal, lib.projectName(c.name)),
                          LS.Cell(LS.Normal, lib.serviceName(c.name)),
                          LS.ColorState(c.state),
                          LS.Cell(LS.Normal, LS.FormatTime(lib.parseTime, c.createdAt)));
        assert row == LS.RowOf(lib, c);
        ghost var next := containers[..i + 1];
        assert next[..i] == containers[..i] && next[i] == c;
        assert LS.Rows(lib, next) == LS.Rows(lib, containers[..i]) + [row];
        out.Write(row);
      }
      assert containers[..|containers|] == containers;
    }

    /** Writes the header and one row per container, or nothing when there are none or anything fails. */
    method ListContainers() returns (err: Option<Error>)
      modifies runner, out
      ensures var (e, w, rows) := LS.ListContainers(lib, runner.oracle, old(runner.State()));
              err == e && runner.State() == w && out.rows == old(out.rows) + rows
    {
      var q := FetchContainers();
      if q.Err? {
        return Some(q.error);
      }
      var containers := q.value;
      if containers == [] {
        return None;
      }
      WriteTable(containers);
      return None;
    }
  }
}
