/**
 * What each lifecycle operation of the registry does, stated as a function of the
 * engine's answers (an `Oracle`) and the world before the call. Each operation is
 * a query or two followed by a fixed plan of steps run by `RunSeq`, which stops at
 * the first failure; the one exception is the stopping of the other active
 * projects, which issues every stop whatever the earlier ones returned.
 *
 * The lemmas below state the registry's rules: which projects get stopped, which
 * commands a missing target never receives, what a failing step ends, how
 * defaults are substituted, and that a successful start or restart leaves no
 * other project running.
 */
module Lifecycle {
  import opened Basics
  import opened Engine

  /** The read-only configuration the registry is built with. */
  datatype Config = Config(
    preStartScript: string,
    postStartScript: string,
    postStopScript: string,
    awsLogin: bool,
    terminalDefaultService: string,
    terminalDefaultCommand: string,
    vscodeDefaultService: string,
    vscodeDefaultDir: string)

  // ---------------------------------------------------------------------------
  // Existence

  /** Some listed project carries this name. */
  predicate Named(aps: seq<Listed>, name: string) {
    exists i :: 0 <= i < |aps| && aps[i].project.name == name
  }

  /** The existence check: a query over all projects, stopped ones included. */
  function ProjectExists(o: Oracle, w: World, p: Ref): (Result<bool, Error>, World) {
    var q := Fetched(o, w, true);
    match q.0
    case Err(e) => (Err(e), q.1)
    case Ok(aps) => (Ok(Named(aps, p.name)), q.1)
  }

  lemma ProjectExistsSearchesAllProjects(o: Oracle, w: World, p: Ref)
    ensures var r := ProjectExists(o, w, p);
            var k := |w.trace|;
            && r.1 == w.(trace := w.trace + [QueryProjects(true)])
            && (r.0.Err? <==> !o.ok(k))
            && (r.0.Err? ==> r.0.error == Failed(k))
            && (r.0.Ok? ==> (r.0.value <==> exists i :: 0 <= i < |o.projects(k)| && o.projects(k)[i].project.name == p.name))
  {
  }

  // ---------------------------------------------------------------------------
  // Stopping the other active projects

  /** A listed project that the stop-others step stops. */
  predicate Stoppable(target: string, ap: Listed) {
    ap.project.name != target && ap.running
  }

  /** The listed projects that get stopped, in listing order. */
  function Targets(target: string, aps: seq<Listed>): seq<Ref>
    decreases |aps|
  {
    if aps == [] then []
    else
      var n := |aps| - 1;
      Targets(target, aps[..n]) + (if Stoppable(target, aps[n]) then [aps[n].project] else [])
  }

  /** The stop of each project, in order. */
  function Stops(refs: seq<Ref>): seq<Command> {
    seq(|refs|, i requires 0 <= i < |refs| => Stop(refs[i]))
  }

  /** One warning per stop, issued from trace position `base` on, that failed. */
  function FailedStops(o: Oracle, base: nat, refs: seq<Ref>): seq<Warning>
    decreases |refs|
  {
    if refs == [] then []
    else
      var n := |refs| - 1;
      FailedStops(o, base, refs[..n]) + (if o.ok(base + n) then [] else [CouldNotStop(refs[n])])
  }

  /** The running/stopped map after the stops issued from `base` on, where only those that succeed count. */
  function AfterStops(o: Oracle, base: nat, s: map<string, bool>, refs: seq<Ref>): map<string, bool>
    decreases |refs|
  {
    if refs == [] then s
    else
      var n := |refs| - 1;
      var s' := AfterStops(o, base, s, refs[..n]);
      if o.ok(base + n) then s'[refs[n].name := false] else s'
  }

  /** The world after the stops of `refs`, issued one by one from the end of `w`'s trace. */
  function AfterStopping(o: Oracle, w: World, refs: seq<Ref>): World {
    World(AfterStops(o, |w.trace|, w.status, refs),
          w.trace + Stops(refs),
          w.warnings + FailedStops(o, |w.trace|, refs))
  }

  /** Issues one stop, logging a warning instead of failing when it does not succeed. */
  function StopOne(o: Oracle, w: World, r: Ref): World {
    var e := Exec(o, w, Stop(r));
    if e.0.Some? then Logged(e.1, CouldNotStop(r)) else e.1
  }

  /** Stopping one more project extends the stops issued so far by that one. */
  lemma StopOneExtends(o: Oracle, w: World, refs: seq<Ref>, r: Ref)
    ensures StopOne(o, AfterStopping(o, w, refs), r) == AfterStopping(o, w, refs + [r])
  {
    var refs' := refs + [r];
    assert refs'[..|refs|] == refs;
    assert Stops(refs') == Stops(refs) + [Stop(r)];
  }

  /**
   * The stop-others step: list the active projects; a failed listing is the
   * step's error. Otherwise stop each listed project that is running and not
   * named like the target, log each stop that fails, and report success.
   */
  function StopOtherActiveProjects(o: Oracle, w: World, target: string): (Option<Error>, World) {
    var q := Fetched(o, w, false);
    match q.0
    case Err(e) => (Some(e), q.1)
    case Ok(aps) =>
      var w1 := q.1;
      (None, AfterStopping(o, w1, Targets(target, aps)))
  }

  /** A project is stopped iff it is listed, running, and not named like the target. */
  lemma {:induction false} TargetsExactly(target: string, aps: seq<Listed>)
    ensures forall r :: r in Targets(target, aps) <==>
              exists i :: 0 <= i < |aps| && aps[i].project == r && Stoppable(target, aps[i])
    decreases |aps|
  {
    if aps != [] {
      var n := |aps| - 1;
      TargetsExactly(target, aps[..n]);
      var last := if Stoppable(target, aps[n]) then [aps[n].project] else [];
      assert Targets(target, aps) == Targets(target, aps[..n]) + last;
      forall r | r in Targets(target, aps)
        ensures exists i :: 0 <= i < |aps| && aps[i].project == r && Stoppable(target, aps[i])
      {
        if r in Targets(target, aps[..n]) {
          var i :| 0 <= i < n && aps[..n][i].project == r && Stoppable(target, aps[..n][i]);
          assert aps[i] == aps[..n][i];
        } else {
          assert r in last;
        }
      }
      forall r | exists i :: 0 <= i < |aps| && aps[i].project == r && Stoppable(target, aps[i])
        ensures r in Targets(target, aps)
      {
        var i :| 0 <= i < |aps| && aps[i].project == r && Stoppable(target, aps[i]);
        if i < n {
          assert aps[..n][i] == aps[i];
        }
      }
    }
  }

  /** The listing positions whose entry the stop-others step stops. */
  function StoppableIndex(target: string, aps: seq<Listed>): nat -> bool {
    (i: nat) => i < |aps| && Stoppable(target, aps[i])
  }

  /**
   * For every prefix of the listing, the projects to stop are those of its
   * stoppable entries, one per entry and in listing order, duplicates included.
   */
  lemma {:induction false} TargetsInListingOrder(target: string, aps: seq<Listed>, n: nat)
    requires n <= |aps|
    ensures var x := Where(n, StoppableIndex(target, aps));
            var ts := Targets(target, aps[..n]);
            && |ts| == |x|
            && forall i :: 0 <= i < |x| ==> ts[i] == aps[x[i]].project
    decreases n
  {
    if n > 0 {
      var m := n - 1;
      TargetsInListingOrder(target, aps, m);
      var P := StoppableIndex(target, aps);
      var x', ts' := Where(m, P), Targets(target, aps[..m]);
      var hit := Stoppable(target, aps[m]);
      assert aps[..n][..m] == aps[..m] && aps[..n][m] == aps[m];
      assert Targets(target, aps[..n]) == ts' + (if hit then [aps[m].project] else []);
      assert P(m) == hit;
      assert Where(n, P) == x' + (if hit then [m] else []);
    }
  }

  /** c is the stop of a listed project that is running and not named like the target. */
  predicate StopsAnOther(target: string, aps: seq<Listed>, c: Command) {
    exists i :: 0 <= i < |aps| && Stoppable(target, aps[i]) && c == Stop(aps[i].project)
  }

  /**
   * Once the listing succeeds, the step succeeds, and the commands it issues are
   * exactly the stops of the listed running projects other than the target: the
   * target itself is never stopped. Which stops fail does not change what is issued.
   */
  lemma StopOthersStopsExactlyTheOthers(o: Oracle, w: World, target: string)
    requires o.ok(|w.trace|)
    ensures var (e, w') := StopOtherActiveProjects(o, w, target);
            var k := |w.trace|;
            var aps := o.projects(k);
            && e.None?
            && |w'.trace| > k
            && w'.trace[..k + 1] == w.trace + [QueryProjects(false)]
            && (forall c :: c in w'.trace[k + 1..] <==> StopsAnOther(target, aps, c))
            && (forall c :: c in w'.trace[k + 1..] ==> c.Stop? && c.target.name != target)
            && w'.trace[k + 1..] == Stops(Targets(target, aps))
  {
    var k := |w.trace|;
    var aps := o.projects(k);
    var ts := Targets(target, aps);
    var w' := StopOtherActiveProjects(o, w, target).1;
    TargetsExactly(target, aps);
    assert w'.trace == w.trace + [QueryProjects(false)] + Stops(ts);
    assert w'.trace[k + 1..] == Stops(ts);
    forall c | c in Stops(ts)
      ensures StopsAnOther(target, aps, c)
    {
      var j :| 0 <= j < |ts| && Stops(ts)[j] == c;
      assert ts[j] in ts;
    }
    forall c | StopsAnOther(target, aps, c)
      ensures c in Stops(ts)
    {
      var i :| 0 <= i < |aps| && Stoppable(target, aps[i]) && c == Stop(aps[i].project);
      assert aps[i].project in ts;
      var j :| 0 <= j < |ts| && ts[j] == aps[i].project;
      assert Stops(ts)[j] == c;
    }
  }

  /** The only way the stop-others step fails is a failed listing, reported as the listing's error. */
  lemma StopOthersFailsOnlyOnListing(o: Oracle, w: World, target: string)
    ensures var (e, w') := StopOtherActiveProjects(o, w, target);
            && (e.Some? <==> !o.ok(|w.trace|))
            && (e.Some? ==> e.value == Failed(|w.trace|) && w' == w.(trace := w.trace + [QueryProjects(false)]))
  {
  }

  /** The warning channel gets one "could not stop" entry per failed stop, and nothing else. */
  lemma {:induction false} FailedStopsExactly(o: Oracle, base: nat, refs: seq<Ref>)
    ensures forall x :: x in FailedStops(o, base, refs) <==>
              exists j :: 0 <= j < |refs| && !o.ok(base + j) && x == CouldNotStop(refs[j])
    decreases |refs|
  {
    if refs != [] {
      var n := |refs| - 1;
      FailedStopsExactly(o, base, refs[..n]);
      forall x | x in FailedStops(o, base, refs)
        ensures exists j :: 0 <= j < |refs| && !o.ok(base + j) && x == CouldNotStop(refs[j])
      {
        if x in FailedStops(o, base, refs[..n]) {
          var j :| 0 <= j < n && !o.ok(base + j) && x == CouldNotStop(refs[..n][j]);
          assert refs[j] == refs[..n][j];
        }
      }
      forall x | exists j :: 0 <= j < |refs| && !o.ok(base + j) && x == CouldNotStop(refs[j])
        ensures x in FailedStops(o, base, refs)
      {
        var j :| 0 <= j < |refs| && !o.ok(base + j) && x == CouldNotStop(refs[j]);
        if j < n {
          assert refs[..n][j] == refs[j];
        }
      }
    }
  }

  /** The offsets, within a batch of stops issued from `base`, of the stops that fail. */
  function Failing(o: Oracle, base: nat): nat -> bool {
    (j: nat) => !o.ok(base + j)
  }

  /**
   * The warnings are one "could not stop" per failed stop, in the order the stops
   * were issued, so a project stopped twice and failing twice is warned about twice.
   */
  lemma {:induction false} FailedStopsInOrder(o: Oracle, base: nat, refs: seq<Ref>)
    ensures var f := Where(|refs|, Failing(o, base));
            var ws := FailedStops(o, base, refs);
            && |ws| == |f|
            && forall i :: 0 <= i < |f| ==> ws[i] == CouldNotStop(refs[f[i]])
    decreases |refs|
  {
    if refs != [] {
      var n := |refs| - 1;
      FailedStopsInOrder(o, base, refs[..n]);
      var F := Failing(o, base);
      var f, ws := Where(n, F), FailedStops(o, base, refs[..n]);
      var hit := !o.ok(base + n);
      assert F(n) == hit;
      var f2 := Where(|refs|, F);
      var ws2 := FailedStops(o, base, refs);
      assert f2 == f + (if hit then [n] else []);
      assert ws2 == ws + (if hit then [CouldNotStop(refs[n])] else []);
      forall i | 0 <= i < |f2|
        ensures ws2[i] == CouldNotStop(refs[f2[i]])
      {
        if i < |f| {
          assert ws[i] == CouldNotStop(refs[..n][f[i]]);
        }
      }
    }
  }

  /** The stop at offset j of the batch succeeded and named project n. */
  predicate StoppedOk(o: Oracle, base: nat, refs: seq<Ref>, n: string) {
    exists j :: 0 <= j < |refs| && refs[j].name == n && o.ok(base + j)
  }

  /**
   * A project ends up stopped exactly when one of its stops succeeded; every
   * other project keeps its state, whatever happened to the stops before it.
   */
  lemma {:induction false} AfterStopsExactly(o: Oracle, base: nat, s: map<string, bool>, refs: seq<Ref>)
    ensures var r := AfterStops(o, base, s, refs);
            && (forall n :: n in r <==> n in s || StoppedOk(o, base, refs, n))
            && (forall n :: n in r ==> r[n] == if StoppedOk(o, base, refs, n) then false else s[n])
    decreases |refs|
  {
    if refs != [] {
      var m := |refs| - 1;
      AfterStopsExactly(o, base, s, refs[..m]);
      forall n ensures StoppedOk(o, base, refs, n) <==>
                       StoppedOk(o, base, refs[..m], n) || (refs[m].name == n && o.ok(base + m))
      {
        if StoppedOk(o, base, refs, n) {
          var j :| 0 <= j < |refs| && refs[j].name == n && o.ok(base + j);
          if j < m {
            assert refs[..m][j] == refs[j];
          }
        }
        if StoppedOk(o, base, refs[..m], n) {
          var j :| 0 <= j < m && refs[..m][j].name == n && o.ok(base + j);
          assert refs[j] == refs[..m][j];
        }
      }
    }
  }

  /** Only the target may still be running. */
  predicate OnlyRunning(status: map<string, bool>, target: string) {
    forall n :: n in status && status[n] ==> n == target
  }

  /** The active-project listing names, as running, every project the engine runs besides the target. */
  predicate Faithful(status: map<string, bool>, aps: seq<Listed>, target: string) {
    forall n :: n in status && status[n] && n != target ==>
      exists i :: 0 <= i < |aps| && aps[i].project.name == n && aps[i].running
  }

  /** The calls at positions base .. base + count - 1 all succeed. */
  predicate AllSucceed(o: Oracle, base: nat, count: nat) {
    forall k :: base <= k < base + count ==> o.ok(k)
  }

  /** When the listing is faithful and every stop succeeds, no project other than the target is left running. */
  lemma StopsLeaveOnlyTarget(o: Oracle, base: nat, s: map<string, bool>, aps: seq<Listed>, target: string)
    requires Faithful(s, aps, target)
    requires AllSucceed(o, base, |Targets(target, aps)|)
    ensures OnlyRunning(AfterStops(o, base, s, Targets(target, aps)), target)
  {
    var ts := Targets(target, aps);
    var r := AfterStops(o, base, s, ts);
    AfterStopsExactly(o, base, s, ts);
    TargetsExactly(target, aps);
    forall n | n in s && s[n] && n != target
      ensures StoppedOk(o, base, ts, n)
    {
      var i :| 0 <= i < |aps| && aps[i].project.name == n && aps[i].running;
      assert aps[i].project in ts;
      var j :| 0 <= j < |ts| && ts[j] == aps[i].project;
      assert o.ok(base + j);
    }
  }

  // ---------------------------------------------------------------------------
  // Start

  /** What starting does once the others are stopped, in this order. */
  function StartSteps(cfg: Config, p: Ref, recreate: bool, update: bool): seq<Command> {
    [Hook(PreStart, cfg.preStartScript)]
    + (if cfg.awsLogin then [AwsLogin] else [])
    + [CreateAndStart(p, recreate, update), Hook(PostStart, cfg.postStartScript)]
  }

  /** Stops the others; once that succeeds, runs `steps` until the first failure. */
  function StopOthersThen(o: Oracle, w: World, target: string, steps: seq<Command>): (Option<Error>, World) {
    var s := StopOtherActiveProjects(o, w, target);
    if s.0.Some? then s else RunSeq(o, s.1, steps)
  }

  function StartProject(cfg: Config, o: Oracle, w: World, p: Ref, recreate: bool, update: bool): (Option<Error>, World) {
    StopOthersThen(o, w, p.name, StartSteps(cfg, p, recreate, update))
  }

  /** Once the stop-others step succeeds, the steps run from the world it leaves. */
  lemma StopOthersThenRuns(o: Oracle, w: World, target: string, steps: seq<Command>)
    requires StopOtherActiveProjects(o, w, target).0.None?
    ensures StopOthersThen(o, w, target, steps) == RunSeq(o, StopOtherActiveProjects(o, w, target).1, steps)
  {
  }

  /**
   * Starting first stops the other active projects; a failed listing is the
   * result. Otherwise it runs the pre-start hook, the AWS login (only when
   * configured), create+start and the post-start hook; the first of these to
   * fail is the result and nothing after it is issued.
   */
  lemma StartProjectOrder(cfg: Config, o: Oracle, w: World, p: Ref, recreate: bool, update: bool)
    ensures var r := StartProject(cfg, o, w, p, recreate, update);
            var s := StopOtherActiveProjects(o, w, p.name);
            if s.0.Some? then r == s
            else
              var base := |s.1.trace|;
              var steps := StartSteps(cfg, p, recreate, update);
              var j := FirstFailure(o, base, |steps|);
              && r.1.trace == s.1.trace + steps[..Issued(j, |steps|)]
              && r.0 == (if j < |steps| then Some(Failed(base + j)) else None)
  {
    var s := StopOtherActiveProjects(o, w, p.name);
    var steps := StartSteps(cfg, p, recreate, update);
    if s.0.None? {
      StopOthersThenRuns(o, w, p.name, steps);
      RunSeqTrace(o, s.1, steps);
      RunSeqOutcome(o, s.1, steps);
    }
  }

  /** The AWS login is issued only when the configuration asks for it. */
  lemma StartLogsInOnlyWhenConfigured(cfg: Config, o: Oracle, w: World, p: Ref, recreate: bool, update: bool)
    ensures var r := StartProject(cfg, o, w, p, recreate, update);
            |r.1.trace| >= |w.trace| && (AwsLogin in r.1.trace[|w.trace|..] ==> cfg.awsLogin)
  {
    var steps := StartSteps(cfg, p, recreate, update);
    if !cfg.awsLogin {
      assert steps == [Hook(PreStart, cfg.preStartScript), CreateAndStart(p, recreate, update), Hook(PostStart, cfg.postStartScript)];
    }
    OnlyListedIssued(o, w, p.name, steps, AwsLogin);
  }

  /** Besides the listing and the stops, only commands from `steps` are issued. */
  lemma OnlyListedIssued(o: Oracle, w: World, target: string, steps: seq<Command>, c: Command)
    requires !c.QueryProjects? && !c.Stop?
    ensures var r := StopOthersThen(o, w, target, steps);
            |r.1.trace| >= |w.trace| && (c in r.1.trace[|w.trace|..] ==> c in steps)
  {
    var k := |w.trace|;
    var s := StopOtherActiveProjects(o, w, target);
    if s.0.None? {
      StopOthersFailsOnlyOnListing(o, w, target);
      StopOthersStopsExactlyTheOthers(o, w, target);
      StopOthersThenRuns(o, w, target, steps);
      RunSeqTrace(o, s.1, steps);
      var r := RunSeq(o, s.1, steps);
      var m := Issued(FirstFailure(o, |s.1.trace|, |steps|), |steps|);
      var head := s.1.trace[k..];
      assert r.1.trace[k..] == head + steps[..m];
      assert c !in head by {
        assert head == [QueryProjects(false)] + s.1.trace[k + 1..];
      }
      if c in steps[..m] {
        var i :| 0 <= i < m && steps[..m][i] == c;
        assert steps[i] == c;
      }
    } else {
      StopOthersFailsOnlyOnListing(o, w, target);
      assert s.1.trace[k..] == [QueryProjects(false)];
    }
  }

  /** Create+start turns the target on; hooks and the login change nothing. */
  lemma ApplyStartSteps(cfg: Config, s: map<string, bool>, p: Ref, recreate: bool, update: bool)
    ensures Apply(s, StartSteps(cfg, p, recreate, update)) == s[p.name := true]
  {
    var steps := StartSteps(cfg, p, recreate, update);
    var post := [Hook(PostStart, cfg.postStartScript)];
    var tail := [CreateAndStart(p, recreate, update)] + post;
    assert post[1..] == [];
    assert Apply(s[p.name := true], post) == s[p.name := true];
    assert tail[1..] == post;
    assert Apply(s, tail) == s[p.name := true];
    assert steps[1..] == (if cfg.awsLogin then [AwsLogin] else []) + tail;
    if cfg.awsLogin {
      assert steps[1..][1..] == tail;
      assert Apply(s, steps[1..]) == Apply(s, tail);
    }
    assert Apply(s, steps) == Apply(s, steps[1..]);
  }

  /**
   * The single-active-project rule: when the active listing names every running
   * project and every stop succeeds, a start that succeeds leaves the target
   * running, and no other project running.
   */
  lemma StartLeavesOnlyTargetRunning(cfg: Config, o: Oracle, w: World, p: Ref, recreate: bool, update: bool)
    requires o.ok(|w.trace|)
    requires Faithful(w.status, o.projects(|w.trace|), p.name)
    requires AllSucceed(o, |w.trace| + 1, |Targets(p.name, o.projects(|w.trace|))|)
    ensures var r := StartProject(cfg, o, w, p, recreate, update);
            r.0.None? ==> OnlyRunning(r.1.status, p.name) && p.name in r.1.status && r.1.status[p.name]
  {
    var k := |w.trace|;
    var aps := o.projects(k);
    var ts := Targets(p.name, aps);
    var s := StopOtherActiveProjects(o, w, p.name);
    StopsLeaveOnlyTarget(o, k + 1, w.status, aps, p.name);
    var steps := StartSteps(cfg, p, recreate, update);
    RunSeqAbortsAtFirstFailure(o, s.1, steps);
    if RunSeq(o, s.1, steps).0.None? {
      assert steps[..|steps|] == steps;
      ApplyStartSteps(cfg, s.1.status, p, recreate, update);
    }
  }

  // ---------------------------------------------------------------------------
  // Stop, restart, remove, build

  /**
   * An operation guarded by the existence check: a failed check is the error; a
   * missing target is logged and the operation succeeds without issuing the
   * steps; otherwise the steps run.
   */
  function Guarded(o: Oracle, w: World, p: Ref, steps: seq<Command>): (Option<Error>, World) {
    var q := ProjectExists(o, w, p);
    match q.0
    case Err(e) => (Some(e), q.1)
    case Ok(found) => if found then RunSeq(o, q.1, steps) else (None, Logged(q.1, NotFound(p)))
  }

  function StopProject(cfg: Config, o: Oracle, w: World, p: Ref): (Option<Error>, World) {
    Guarded(o, w, p, [Stop(p), Hook(PostStop, cfg.postStopScript)])
  }

  function RestartProject(o: Oracle, w: World, p: Ref): (Option<Error>, World) {
    var s := StopOtherActiveProjects(o, w, p.name);
    if s.0.Some? then s else Guarded(o, s.1, p, [Restart(p)])
  }

  function RemoveProject(o: Oracle, w: World, p: Ref): (Option<Error>, World) {
    Guarded(o, w, p, [Remove(p)])
  }

  /** Building needs no existing project: no check, one build command. */
  function BuildProject(o: Oracle, w: World, p: Ref, noCache: bool): (Option<Error>, World) {
    RunSeq(o, w, [Build(p, noCache)])
  }

  /** On a missing target the guarded steps are never issued: only the check, and a warning. */
  lemma GuardedSkipsMissingTarget(o: Oracle, w: World, p: Ref, steps: seq<Command>)
    requires o.ok(|w.trace|)
    requires !Named(o.projects(|w.trace|), p.name)
    ensures Guarded(o, w, p, steps)
            == (None, World(w.status, w.trace + [QueryProjects(true)], w.warnings + [NotFound(p)]))
  {
  }

  /** A failed existence check is the operation's error, and none of the guarded steps is issued. */
  lemma GuardedFailsOnCheck(o: Oracle, w: World, p: Ref, steps: seq<Command>)
    requires !o.ok(|w.trace|)
    ensures Guarded(o, w, p, steps) == (Some(Failed(|w.trace|)), w.(trace := w.trace + [QueryProjects(true)]))
  {
  }

  /** Stop and remove return a failed existence check as their error, issuing no stop, hook or remove. */
  lemma StopRemoveFailOnCheck(cfg: Config, o: Oracle, w: World, p: Ref)
    requires !o.ok(|w.trace|)
    ensures var failed := (Some(Failed(|w.trace|)), w.(trace := w.trace + [QueryProjects(true)]));
            && StopProject(cfg, o, w, p) == failed
            && RemoveProject(o, w, p) == failed
  {
    GuardedFailsOnCheck(o, w, p, [Stop(p), Hook(PostStop, cfg.postStopScript)]);
    GuardedFailsOnCheck(o, w, p, [Remove(p)]);
  }

  /** Stopping a project that does not exist succeeds and issues neither a stop nor the post-stop hook. */
  lemma StopProjectMissingIsNoOp(cfg: Config, o: Oracle, w: World, p: Ref)
    requires o.ok(|w.trace|)
    requires !Named(o.projects(|w.trace|), p.name)
    ensures var (e, w') := StopProject(cfg, o, w, p);
            && e.None?
            && w'.status == w.status
            && w'.warnings == w.warnings + [NotFound(p)]
            && (forall c :: c in w'.trace[|w.trace|..] ==> IsQuery(c))
  {
    GuardedSkipsMissingTarget(o, w, p, [Stop(p), Hook(PostStop, cfg.postStopScript)]);
    assert StopProject(cfg, o, w, p).1.trace[|w.trace|..] == [QueryProjects(true)];
  }

  /** Removing a project that does not exist succeeds and issues no remove. */
  lemma RemoveProjectMissingIsNoOp(o: Oracle, w: World, p: Ref)
    requires o.ok(|w.trace|)
    requires !Named(o.projects(|w.trace|), p.name)
    ensures var (e, w') := RemoveProject(o, w, p);
            && e.None?
            && w'.status == w.status
            && w'.warnings == w.warnings + [NotFound(p)]
            && (forall c :: c in w'.trace[|w.trace|..] ==> IsQuery(c))
  {
    GuardedSkipsMissingTarget(o, w, p, [Remove(p)]);
    assert RemoveProject(o, w, p).1.trace[|w.trace|..] == [QueryProjects(true)];
  }

  /**
   * Stopping an existing project issues the stop; a failed stop is the result and
   * the post-stop hook is not run; after a successful stop the hook runs and its
   * outcome is the result.
   */
  lemma StopProjectRunsHookOnlyAfterStop(cfg: Config, o: Oracle, w: World, p: Ref)
    requires o.ok(|w.trace|)
    requires Named(o.projects(|w.trace|), p.name)
    ensures var (e, w') := StopProject(cfg, o, w, p);
            var s := |w.trace| + 1;
            var hook := Hook(PostStop, cfg.postStopScript);
            if !o.ok(s) then
              e == Some(Failed(s)) && w'.trace == w.trace + [QueryProjects(true), Stop(p)]
            else
              && w'.trace == w.trace + [QueryProjects(true), Stop(p), hook]
              && e == (if o.ok(s + 1) then None else Some(Failed(s + 1)))
  {
    var w1 := ProjectExists(o, w, p).1;
    RunSeqAbortsAtFirstFailure(o, w1, [Stop(p), Hook(PostStop, cfg.postStopScript)]);
  }

  /**
   * Restarting stops the other active projects before looking for the target, so
   * they are stopped even when the target does not exist; the restart itself is
   * then not issued, and the operation succeeds.
   */
  lemma RestartStopsOthersEvenWhenMissing(o: Oracle, w: World, p: Ref)
    requires o.ok(|w.trace|)
    requires o.ok(|w.trace| + 1 + |Targets(p.name, o.projects(|w.trace|))|)
    requires !Named(o.projects(|w.trace| + 1 + |Targets(p.name, o.projects(|w.trace|))|), p.name)
    ensures var (e, w') := RestartProject(o, w, p);
            var ts := Targets(p.name, o.projects(|w.trace|));
            && e.None?
            && w'.trace == w.trace + [QueryProjects(false)] + Stops(ts) + [QueryProjects(true)]
            && Restart(p) !in w'.trace[|w.trace|..]
            && w'.warnings == StopOtherActiveProjects(o, w, p.name).1.warnings + [NotFound(p)]
  {
    var k := |w.trace|;
    var ts := Targets(p.name, o.projects(k));
    var s := StopOtherActiveProjects(o, w, p.name);
    assert s.0.None? && s.1.trace == w.trace + [QueryProjects(false)] + Stops(ts);
    assert |s.1.trace| == k + 1 + |ts|;
    GuardedSkipsMissingTarget(o, s.1, p, [Restart(p)]);
    var w' := RestartProject(o, w, p).1;
    assert w'.trace == s.1.trace + [QueryProjects(true)];
    assert w'.trace[k..] == [QueryProjects(false)] + Stops(ts) + [QueryProjects(true)];
    assert Restart(p) !in Stops(ts);
  }

  /**
   * A restart fails only on a failed query. A failed active listing is the error
   * before anything is stopped. A failed existence check after the stops is the
   * error, and no restart is issued.
   */
  lemma RestartFailsOnQuery(o: Oracle, w: World, p: Ref)
    ensures !o.ok(|w.trace|) ==>
              RestartProject(o, w, p) == (Some(Failed(|w.trace|)), w.(trace := w.trace + [QueryProjects(false)]))
    ensures var s := StopOtherActiveProjects(o, w, p.name).1;
            o.ok(|w.trace|) && !o.ok(|s.trace|) ==>
              RestartProject(o, w, p) == (Some(Failed(|s.trace|)), s.(trace := s.trace + [QueryProjects(true)]))
  {
    StopOthersFailsOnlyOnListing(o, w, p.name);
    var s := StopOtherActiveProjects(o, w, p.name);
    if o.ok(|w.trace|) && !o.ok(|s.1.trace|) {
      GuardedFailsOnCheck(o, s.1, p, [Restart(p)]);
    }
  }

  /** The single-active-project rule for restart, whether or not the target exists. */
  lemma RestartLeavesOnlyTargetRunning(o: Oracle, w: World, p: Ref)
    requires o.ok(|w.trace|)
    requires Faithful(w.status, o.projects(|w.trace|), p.name)
    requires AllSucceed(o, |w.trace| + 1, |Targets(p.name, o.projects(|w.trace|))|)
    ensures var r := RestartProject(o, w, p);
            r.0.None? ==> OnlyRunning(r.1.status, p.name)
  {
    var k := |w.trace|;
    var aps := o.projects(k);
    StopsLeaveOnlyTarget(o, k + 1, w.status, aps, p.name);
    var s := StopOtherActiveProjects(o, w, p.name);
    var q := ProjectExists(o, s.1, p);
    if q.0.Ok? && q.0.value {
      RunSeqAbortsAtFirstFailure(o, q.1, [Restart(p)]);
      assert [Restart(p)][..1] == [Restart(p)];
    }
  }

  /**
   * Restarting a project that exists, once the others are stopped: the existence
   * query is followed by exactly one restart, whose outcome is the result, and a
   * successful restart leaves the target running.
   */
  lemma RestartExistingIssuesRestart(o: Oracle, w: World, p: Ref)
    requires o.ok(|w.trace|)
    ensures var s := StopOtherActiveProjects(o, w, p.name).1;
            var k := |s.trace|;
            o.ok(k) && Named(o.projects(k), p.name) ==>
              var (e, w') := RestartProject(o, w, p);
              && w'.trace == s.trace + [QueryProjects(true), Restart(p)]
              && e == (if o.ok(k + 1) then None else Some(Failed(k + 1)))
              && w'.warnings == s.warnings
              && w'.status == (if o.ok(k + 1) then s.status[p.name := true] else s.status)
  {
    var s := StopOtherActiveProjects(o, w, p.name);
    StopOthersFailsOnlyOnListing(o, w, p.name);
    RunSeqSingle(o, ProjectExists(o, s.1, p).1, Restart(p));
  }

  /**
   * Removing a project that exists: the existence query is followed by exactly
   * one remove, whose outcome is the result; a successful remove forgets the project.
   */
  lemma RemoveExistingIssuesRemove(o: Oracle, w: World, p: Ref)
    requires o.ok(|w.trace|)
    requires Named(o.projects(|w.trace|), p.name)
    ensures var (e, w') := RemoveProject(o, w, p);
            var k := |w.trace|;
            && w'.trace == w.trace + [QueryProjects(true), Remove(p)]
            && e == (if o.ok(k + 1) then None else Some(Failed(k + 1)))
            && w'.warnings == w.warnings
            && w'.status == (if o.ok(k + 1) then w.status - {p.name} else w.status)
  {
    RunSeqSingle(o, ProjectExists(o, w, p).1, Remove(p));
  }

  /** Building issues exactly one build command, with no existence check. */
  lemma BuildProjectIsUnguarded(o: Oracle, w: World, p: Ref, noCache: bool)
    ensures var (e, w') := BuildProject(o, w, p, noCache);
            && w'.trace == w.trace + [Build(p, noCache)]
            && (e.None? <==> o.ok(|w.trace|))
            && (e.Some? ==> e.value == Failed(|w.trace|))
  {
    RunSeqSingle(o, w, Build(p, noCache));
  }

  // ---------------------------------------------------------------------------
  // Terminal and editor

  /** A caller's value, or the configured default when the caller left it empty. */
  function Resolve(given: string, fallback: string): string {
    if given == "" then fallback else given
  }

  /** The project with its service defaulted when none is selected. */
  function WithService(p: Ref, fallback: string): Ref {
    p.(service := Resolve(p.service, fallback))
  }

  function Terminal(cfg: Config, o: Oracle, w: World, p: Ref, cmd: string): (Option<Error>, World) {
    RunSeq(o, w, [Shell(WithService(p, cfg.terminalDefaultService), Resolve(cmd, cfg.terminalDefaultCommand))])
  }

  /**
   * The terminal opens in the caller's service and runs the caller's command;
   * each is replaced by its configured default only when the caller gave none.
   */
  lemma TerminalResolvesDefaults(cfg: Config, o: Oracle, w: World, p: Ref, cmd: string)
    ensures var (e, w') := Terminal(cfg, o, w, p, cmd);
            && |w'.trace| == |w.trace| + 1
            && var c := w'.trace[|w.trace|];
            && c.Shell? && c.target.name == p.name
            && c.target.service == (if p.service != "" then p.service else cfg.terminalDefaultService)
            && c.cmd == (if cmd != "" then cmd else cfg.terminalDefaultCommand)
            && (e.None? <==> o.ok(|w.trace|))
            && w'.status == w.status && w'.warnings == w.warnings
  {
    RunSeqSingle(o, w, Shell(WithService(p, cfg.terminalDefaultService), Resolve(cmd, cfg.terminalDefaultCommand)));
  }

  function Code(cfg: Config, o: Oracle, w: World, p: Ref, dir: string): (Option<Error>, World) {
    var t := WithService(p, cfg.vscodeDefaultService);
    var q := FoundContainer(o, w, t);
    match q.0
    case Err(e) => (Some(e), q.1)
    case Ok(None) => (None, Logged(q.1, NotFound(t)))
    case Ok(Some(c)) => RunSeq(o, q.1, [OpenEditor(c, Resolve(dir, cfg.vscodeDefaultDir))])
  }

  /**
   * The editor looks up the container of the caller's service (or the default
   * service) and opens it in the caller's directory (or the default directory);
   * when no container is found it logs a warning, opens nothing and succeeds.
   */
  lemma CodeResolvesDefaults(cfg: Config, o: Oracle, w: World, p: Ref, dir: string)
    ensures var (e, w') := Code(cfg, o, w, p, dir);
            var k := |w.trace|;
            var t := Ref(p.name, if p.service != "" then p.service else cfg.vscodeDefaultService);
            && |w'.trace| > k
            && w'.trace[k] == QueryServiceContainer(t)
            && (!o.ok(k) ==> e == Some(Failed(k)) && |w'.trace| == k + 1)
            && (o.ok(k) && o.container(k).None? ==>
                  e.None? && w' == World(w.status, w.trace + [QueryServiceContainer(t)], w.warnings + [NotFound(t)]))
            && (o.ok(k) && o.container(k).Some? ==>
                  && w'.trace == w.trace + [QueryServiceContainer(t),
                       OpenEditor(o.container(k).value, if dir != "" then dir else cfg.vscodeDefaultDir)]
                  && (e.None? <==> o.ok(k + 1))
                  && w'.warnings == w.warnings)
            && w'.status == w.status
  {
    var k := |w.trace|;
    var t := WithService(p, cfg.vscodeDefaultService);
    if o.ok(k) && o.container(k).Some? {
      RunSeqSingle(o, FoundContainer(o, w, t).1, OpenEditor(o.container(k).value, Resolve(dir, cfg.vscodeDefaultDir)));
    }
  }
}
