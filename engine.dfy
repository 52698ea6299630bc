/**
 * The container engine as the registry sees it: the commands it can be sent, the
 * record of what was sent, and an oracle that decides how each call turns out.
 *
 * The engine itself (process invocation, argument building, hook scripts, the AWS
 * login) is not modelled. Every call is an entry appended to a trace, and whether
 * the call at trace position k succeeds, and what data a successful query at
 * position k returns, is read off an `Oracle`. Because the oracle is indexed by
 * position, every possible run of the engine has an oracle that produces it.
 */
module Engine {
  import opened Basics

  /** A project, or one service of it (`service == ""` means no service selected). */
  datatype Ref = Ref(name: string, service: string)

  /** The three lifecycle points at which a configured hook script runs. */
  datatype HookPoint = PreStart | PostStart | PostStop

  /** Everything the registry can ask of the engine, in the order it asks it. */
  datatype Command =
    | QueryProjects(includeStopped: bool)
    | QueryContainers
    | QueryServiceContainer(target: Ref)
    | Hook(point: HookPoint, script: string)
    | AwsLogin
    | CreateAndStart(target: Ref, recreate: bool, update: bool)
    | Stop(target: Ref)
    | Restart(target: Ref)
    | Remove(target: Ref)
    | Build(target: Ref, noCache: bool)
    | Shell(target: Ref, cmd: string)
    | OpenEditor(container: string, dir: string)

  /** Queries read engine state; every other command is an action. */
  predicate IsQuery(c: Command) {
    c.QueryProjects? || c.QueryContainers? || c.QueryServiceContainer?
  }

  /** What the registry logs on its warning channel instead of failing. */
  datatype Warning = CouldNotStop(target: Ref) | NotFound(target: Ref)

  /**
   * A fatal error: the engine call at trace position `step` failed, or the
   * record at position `index` of a container listing did not decode.
   */
  datatype Error = Failed(step: nat) | BadRecord(index: nat)

  /** One entry of a project listing, with the answer its `IsRunning` gives. */
  datatype Listed = Listed(project: Ref, running: bool)

  /**
   * How the engine answers: `ok(k)` says whether the call at trace position k
   * succeeds; a successful project query at k lists `projects(k)`, a successful
   * container query lists the raw records `records(k)`, and a successful
   * service-container lookup finds `container(k)`.
   */
  datatype Oracle = Oracle(
    ok: nat -> bool,
    projects: nat -> seq<Listed>,
    records: nat -> seq<string>,
    container: nat -> Option<string>)

  /**
   * The observable state: which projects are running, every call issued so far,
   * and every warning logged so far.
   */
  datatype World = World(status: map<string, bool>, trace: seq<Command>, warnings: seq<Warning>)

  /** The effect a command that succeeds has on the running/stopped map. */
  function Effect(status: map<string, bool>, c: Command): map<string, bool> {
    match c
    case CreateAndStart(t, _, _) => status[t.name := true]
    case Restart(t) => status[t.name := true]
    case Stop(t) => status[t.name := false]
    case Remove(t) => status - {t.name}
    case _ => status
  }

  /** The effects of a sequence of commands that all succeed, first to last. */
  function Apply(status: map<string, bool>, cs: seq<Command>): map<string, bool>
    decreases |cs|
  {
    if cs == [] then status else Apply(Effect(status, cs[0]), cs[1..])
  }

  /** Issues one action; a failure is reported as the error of that trace position. */
  function Exec(o: Oracle, w: World, c: Command): (Option<Error>, World) {
    var k := |w.trace|;
    if o.ok(k) then (None, w.(status := Effect(w.status, c), trace := w.trace + [c]))
    else (Some(Failed(k)), w.(trace := w.trace + [c]))
  }

  function Logged(w: World, x: Warning): World {
    w.(warnings := w.warnings + [x])
  }

  /** The project query; `includeStopped` selects all projects or the active ones only. */
  function Fetched(o: Oracle, w: World, includeStopped: bool): (Result<seq<Listed>, Error>, World) {
    var k := |w.trace|;
    var w' := w.(trace := w.trace + [QueryProjects(includeStopped)]);
    if o.ok(k) then (Ok(o.projects(k)), w') else (Err(Failed(k)), w')
  }

  /** The container query, whose output is one raw record per line. */
  function FetchedRecords(o: Oracle, w: World): (Result<seq<string>, Error>, World) {
    var k := |w.trace|;
    var w' := w.(trace := w.trace + [QueryContainers]);
    if o.ok(k) then (Ok(o.records(k)), w') else (Err(Failed(k)), w')
  }

  /** The lookup of the running container of a service; `None` when there is none. */
  function FoundContainer(o: Oracle, w: World, t: Ref): (Result<Option<string>, Error>, World) {
    var k := |w.trace|;
    var w' := w.(trace := w.trace + [QueryServiceContainer(t)]);
    if o.ok(k) then (Ok(o.container(k)), w') else (Err(Failed(k)), w')
  }

  /**
   * How many of the n calls at trace positions base, base+1, ... succeed before
   * the first that fails (n when none fails).
   */
  function FirstFailure(o: Oracle, base: nat, n: nat): (j: nat)
    ensures j <= n
    ensures forall k :: base <= k < base + j ==> o.ok(k)
    ensures j < n ==> !o.ok(base + j)
    decreases n
  {
    if n == 0 || !o.ok(base) then 0 else 1 + FirstFailure(o, base + 1, n - 1)
  }

  /** Issues the steps in order; the first failure ends the sequence. */
  function RunSeq(o: Oracle, w: World, steps: seq<Command>): (Option<Error>, World)
    decreases |steps|
  {
    if steps == [] then (None, w)
    else
      var first := Exec(o, w, steps[0]);
      if first.0.Some? then first else RunSeq(o, first.1, steps[1..])
  }

  /** A one-step sequence is that step. */
  lemma RunSeqSingle(o: Oracle, w: World, c: Command)
    ensures RunSeq(o, w, [c]) == Exec(o, w, c)
  {
    assert [c][1..] == [];
  }

  /** How many steps of a sequence of n get issued when j of them succeed first. */
  function Issued(j: nat, n: nat): nat {
    if j < n then j + 1 else n
  }

  /**
   * A fixed sequence of steps stops at its first failure: exactly the steps up to
   * and including the failing one are issued, the error is that step's, and only
   * the steps before it take effect. When nothing fails every step is issued and
   * the result is success.
   */
  lemma RunSeqAbortsAtFirstFailure(o: Oracle, w: World, steps: seq<Command>)
    ensures var r := RunSeq(o, w, steps);
            var j := FirstFailure(o, |w.trace|, |steps|);
            && r.1.trace == w.trace + steps[..Issued(j, |steps|)]
            && r.0 == (if j < |steps| then Some(Failed(|w.trace| + j)) else None)
            && r.1.status == Apply(w.status, steps[..j])
            && r.1.warnings == w.warnings
  {
    RunSeqTrace(o, w, steps);
    RunSeqOutcome(o, w, steps);
    RunSeqStatus(o, w, steps);
  }

  /** A first step that succeeds is issued and the rest of the sequence follows from there. */
  lemma RunSeqStep(o: Oracle, w: World, steps: seq<Command>)
    requires steps != [] && o.ok(|w.trace|)
    ensures var w1 := Exec(o, w, steps[0]).1;
            && w1.trace == w.trace + [steps[0]]
            && w1.status == Effect(w.status, steps[0])
            && w1.warnings == w.warnings
            && RunSeq(o, w, steps) == RunSeq(o, w1, steps[1..])
            && FirstFailure(o, |w.trace|, |steps|) == 1 + FirstFailure(o, |w1.trace|, |steps| - 1)
  {
  }

  /** The steps issued from trace position `base` on: up to and including the first that fails. */
  function IssuedSteps(o: Oracle, base: nat, steps: seq<Command>): seq<Command>
    decreases |steps|
  {
    if steps == [] then []
    else if o.ok(base) then [steps[0]] + IssuedSteps(o, base + 1, steps[1..])
    else [steps[0]]
  }

  /** The issued steps are the prefix that ends at the first failure. */
  lemma {:induction false} IssuedStepsPrefix(o: Oracle, base: nat, steps: seq<Command>)
    ensures IssuedSteps(o, base, steps) == steps[..Issued(FirstFailure(o, base, |steps|), |steps|)]
    decreases |steps|
  {
    if steps != [] && o.ok(base) {
      IssuedStepsPrefix(o, base + 1, steps[1..]);
      var m' := Issued(FirstFailure(o, base + 1, |steps| - 1), |steps| - 1);
      assert [steps[0]] + steps[1..][..m'] == steps[..1 + m'];
    } else if steps != [] {
      assert steps[..1] == [steps[0]];
    }
  }

  lemma {:induction false} RunSeqIssues(o: Oracle, w: World, steps: seq<Command>)
    ensures RunSeq(o, w, steps).1.trace == w.trace + IssuedSteps(o, |w.trace|, steps)
    decreases |steps|
  {
    if steps != [] && o.ok(|w.trace|) {
      var w1 := Exec(o, w, steps[0]).1;
      RunSeqStep(o, w, steps);
      RunSeqIssues(o, w1, steps[1..]);
      assert w1.trace + IssuedSteps(o, |w1.trace|, steps[1..])
             == w.trace + ([steps[0]] + IssuedSteps(o, |w1.trace|, steps[1..]));
    }
  }

  lemma RunSeqTrace(o: Oracle, w: World, steps: seq<Command>)
    ensures RunSeq(o, w, steps).1.trace
            == w.trace + steps[..Issued(FirstFailure(o, |w.trace|, |steps|), |steps|)]
  {
    RunSeqIssues(o, w, steps);
    IssuedStepsPrefix(o, |w.trace|, steps);
  }

  lemma {:induction false} RunSeqOutcome(o: Oracle, w: World, steps: seq<Command>)
    ensures var r := RunSeq(o, w, steps);
            var j := FirstFailure(o, |w.trace|, |steps|);
            && r.0 == (if j < |steps| then Some(Failed(|w.trace| + j)) else None)
            && r.1.warnings == w.warnings
    decreases |steps|
  {
    if steps != [] && o.ok(|w.trace|) {
      var w1 := Exec(o, w, steps[0]).1;
      RunSeqOutcome(o, w1, steps[1..]);
    }
  }

  /** The steps that succeed from trace position `base` on, before the first failure. */
  function SucceededSteps(o: Oracle, base: nat, steps: seq<Command>): seq<Command>
    decreases |steps|
  {
    if steps == [] || !o.ok(base) then [] else [steps[0]] + SucceededSteps(o, base + 1, steps[1..])
  }

  lemma {:induction false} SucceededStepsPrefix(o: Oracle, base: nat, steps: seq<Command>)
    ensures SucceededSteps(o, base, steps) == steps[..FirstFailure(o, base, |steps|)]
    decreases |steps|
  {
    if steps != [] && o.ok(base) {
      SucceededStepsPrefix(o, base + 1, steps[1..]);
      var j' := FirstFailure(o, base + 1, |steps| - 1);
      assert [steps[0]] + steps[1..][..j'] == steps[..1 + j'];
    }
  }

  lemma {:induction false} RunSeqApplies(o: Oracle, w: World, steps: seq<Command>)
    ensures RunSeq(o, w, steps).1.status == Apply(w.status, SucceededSteps(o, |w.trace|, steps))
    decreases |steps|
  {
    if steps != [] && o.ok(|w.trace|) {
      var w1 := Exec(o, w, steps[0]).1;
      RunSeqStep(o, w, steps);
      RunSeqApplies(o, w1, steps[1..]);
      var rest := SucceededSteps(o, |w1.trace|, steps[1..]);
      assert ([steps[0]] + rest)[1..] == rest;
    }
  }

  lemma RunSeqStatus(o: Oracle, w: World, steps: seq<Command>)
    ensures RunSeq(o, w, steps).1.status
            == Apply(w.status, steps[..FirstFailure(o, |w.trace|, |steps|)])
  {
    RunSeqApplies(o, w, steps);
    SucceededStepsPrefix(o, |w.trace|, steps);
  }

  /**
   * The engine the registry is wired to, as an object whose calls append to its
   * trace. Each method is the imperative counterpart of one step function above.
   */
  class Runner {
    var status: map<string, bool>
    var trace: seq<Command>
    var warnings: seq<Warning>
    const oracle: Oracle

    constructor (oracle: Oracle, status: map<string, bool>)
      ensures this.oracle == oracle
      ensures State() == World(status, [], [])
    {
      this.oracle := oracle;
      this.status := status;
      this.trace := [];
      this.warnings := [];
    }

    function State(): World
      reads this
    {
      World(status, trace, warnings)
    }

    /** `Execute()` of a command object: one action, success or failure. */
    method Execute(c: Command) returns (err: Option<Error>)
      modifies this
      ensures (err, State()) == Exec(oracle, old(State()), c)
    {
      if oracle.ok(|trace|) {
        err := None;
        status := Effect(status, c);
      } else {
        err := Some(Failed(|trace|));
      }
      trace := trace + [c];
    }

    method FetchProjects(includeStopped: bool) returns (r: Result<seq<Listed>, Error>)
      modifies this
      ensures (r, State()) == Fetched(oracle, old(State()), includeStopped)
    {
      r := if oracle.ok(|trace|) then Ok(oracle.projects(|trace|)) else Err(Failed(|trace|));
      trace := trace + [QueryProjects(includeStopped)];
    }

    /** `ExecuteWithOutput()` of the container query. */
    method FetchRecords() returns (r: Result<seq<string>, Error>)
      modifies this
      ensures (r, State()) == FetchedRecords(oracle, old(State()))
    {
      r := if oracle.ok(|trace|) then Ok(oracle.records(|trace|)) else Err(Failed(|trace|));
      trace := trace + [QueryContainers];
    }

    method ServiceContainer(t: Ref) returns (r: Result<Option<string>, Error>)
      modifies this
      ensures (r, State()) == FoundContainer(oracle, old(State()), t)
    {
      r := if oracle.ok(|trace|) then Ok(oracle.container(|trace|)) else Err(Failed(|trace|));
      trace := trace + [QueryServiceContainer(t)];
    }

    /** A line on the warning channel. */
    method Warn(x: Warning)
      modifies this
      ensures State() == Logged(old(State()), x)
    {
      warnings := warnings + [x];
    }
  }
}
