/** Which bootstrap step may start next. */
module BootstrapSchedulers {
  import opened BootstrapStates
  import opened Wrappers

  datatype Step = Step(id: StepId, system: bool, dependsOn: seq<StepId>, resources: set<nat>)

  predicate AllPassed(plan: seq<Step>, steps: StepRecords) {
    forall i :: 0 <= i < |plan| ==> StepPassed(steps, plan[i].id)
  }

  ghost predicate InPlan(plan: seq<Step>, s: StepId) {
    exists i :: 0 <= i < |plan| && plan[i].id == s
  }

  ghost predicate SameSteps(plan: seq<Step>, ordered: seq<Step>) {
    multiset(plan) == multiset(ordered)
  }

  lemma {:induction false} SameStepsSamePassed(plan: seq<Step>, ordered: seq<Step>, steps: StepRecords)
    requires SameSteps(plan, ordered)
    ensures AllPassed(plan, steps) <==> AllPassed(ordered, steps)
  {
    if AllPassed(plan, steps) {
      forall i | 0 <= i < |ordered|
        ensures StepPassed(steps, ordered[i].id)
      {
        assert ordered[i] in multiset(ordered) && ordered[i] in plan;
      }
    }
    if AllPassed(ordered, steps) {
      forall i | 0 <= i < |plan|
        ensures StepPassed(steps, plan[i].id)
      {
        assert plan[i] in multiset(plan) && plan[i] in ordered;
      }
    }
  }

  lemma {:induction false} SameStepsInPlan(plan: seq<Step>, ordered: seq<Step>, i: nat)
    requires SameSteps(plan, ordered) && i < |ordered|
    ensures InPlan(plan, ordered[i].id)
  {
    assert ordered[i] in multiset(ordered) && ordered[i] in plan;
  }

  /** Each step comes after all it depends on. */
  ghost predicate DependenciesFirst(ordered: seq<Step>) {
    forall i, d :: 0 <= i < |ordered| && 0 <= d < |ordered[i].dependsOn| ==>
      exists j :: 0 <= j < i && ordered[j].id == ordered[i].dependsOn[d]
  }

  /** Dependencies first, and user steps after all system steps. */
  ghost predicate Topological(ordered: seq<Step>) {
    && DependenciesFirst(ordered)
    && (forall i, j :: 0 <= i < j < |ordered| && ordered[j].system ==> ordered[i].system)
  }

  predicate DependenciesPassed(step: Step, steps: StepRecords) {
    forall d :: 0 <= d < |step.dependsOn| ==> StepPassed(steps, step.dependsOn[d])
  }

  /** The steps recorded as running. */
  ghost function RunningOf(records: StepRecords): set<StepId> {
    set s | s in records && records[s].status == Running
  }

  lemma {:induction false} RunningOfIsEmpty(records: StepRecords)
    ensures RunningOf(records) == {} <==> forall s :: !HasStatus(records, s, Running)
  {
    forall s
      ensures s in RunningOf(records) <==> HasStatus(records, s, Running)
    {
    }
  }

  /** All system steps of a plan have passed. */
  ghost predicate SystemPassed(plan: seq<Step>, records: StepRecords) {
    forall t :: t in plan && t.system ==> StepPassed(records, t.id)
  }

  /** No running step of a plan uses any of these. */
  ghost predicate ResourcesFree(plan: seq<Step>, records: StepRecords, resources: set<nat>) {
    forall t :: t in plan && HasStatus(records, t.id, Running) ==> t.resources !! resources
  }

  /**
   * By what is recorded alone: a step of the plan may start if it is new or pending, none has failed, fewer are running
   * than may, what it depends on has passed, a user step finds all system steps passed, and its resources are free.
   */
  ghost predicate MayStart(plan: seq<Step>, parallelism: nat, records: StepRecords, step: Step) {
    && step in plan && Busy(records, step.id) == 0 && !SomeFailed(records) && |RunningOf(records)| < parallelism
    && DependenciesPassed(step, records) && (step.system || SystemPassed(plan, records))
    && ResourcesFree(plan, records, step.resources)
  }

  /** Some step of the plan with this identifier may start. */
  ghost predicate Entitled(plan: seq<Step>, parallelism: nat, records: StepRecords, s: StepId) {
    exists step :: MayStart(plan, parallelism, records, step) && step.id == s
  }

  ghost predicate NoneMayStart(plan: seq<Step>, parallelism: nat, records: StepRecords) {
    forall step :: step in plan ==> !MayStart(plan, parallelism, records, step)
  }

  lemma {:induction false} SameStepsSameMembers(plan: seq<Step>, ordered: seq<Step>, step: Step)
    requires SameSteps(plan, ordered)
    ensures step in plan <==> step in ordered
  {
    assert step in plan <==> step in multiset(plan);
    assert step in ordered <==> step in multiset(ordered);
  }

  lemma {:induction false} EntitledIsFree(plan: seq<Step>, parallelism: nat, records: StepRecords, s: StepId)
    requires Entitled(plan, parallelism, records, s)
    ensures Busy(records, s) == 0
  {
    var step :| MayStart(plan, parallelism, records, step) && step.id == s;
  }

  lemma {:induction false} StepInPlan(plan: seq<Step>, step: Step)
    requires step in plan
    ensures InPlan(plan, step.id)
  {
    var i :| 0 <= i < |plan| && plan[i] == step;
    assert plan[i].id == step.id;
  }

  class Scheduler {
    const steps: seq<Step>
    const maxParallelism: nat
    var running: set<StepId>
    var stopping: bool

    constructor (steps: seq<Step>, maxParallelism: nat)
      ensures this.steps == steps && this.maxParallelism == maxParallelism && running == {} && !stopping
    {
      this.steps, this.maxParallelism, running, stopping := steps, maxParallelism, {}, false;
    }

    predicate CanStart()
      reads this
    {
      !stopping && |running| < maxParallelism
    }

    predicate PhaseReady(step: Step, records: StepRecords)
      reads this
    {
      step.system || forall i :: 0 <= i < |steps| && steps[i].system ==> StepPassed(records, steps[i].id)
    }

    predicate ResourcesAvailable(step: Step)
      reads this
    {
      forall i :: 0 <= i < |steps| && steps[i].id in running ==> steps[i].resources !! step.resources
    }

    predicate Ready(step: Step, records: StepRecords)
      reads this
    {
      && !StepPassed(records, step.id) && step.id !in running && PhaseReady(step, records)
      && DependenciesPassed(step, records) && ResourcesAvailable(step)
    }

    ghost predicate FirstReady(i: nat, records: StepRecords)
      requires i < |steps|
      reads this
    {
      Ready(steps[i], records) && forall j :: 0 <= j < i ==> !Ready(steps[j], records)
    }

    /** The scheduler holds what the records say. */
    ghost predicate Agrees(plan: seq<Step>, records: StepRecords)
      reads this
    {
      SameSteps(plan, steps) && running == RunningOf(records) && (stopping <==> SomeFailed(records))
    }

    lemma {:induction false} PhaseReadyIff(plan: seq<Step>, step: Step, records: StepRecords)
      requires Agrees(plan, records)
      ensures PhaseReady(step, records) <==> step.system || SystemPassed(plan, records)
    {
      forall t: Step
        ensures t in plan <==> t in steps
      {
        SameStepsSameMembers(plan, steps, t);
      }
    }

    lemma {:induction false} ResourcesAvailableIff(plan: seq<Step>, step: Step, records: StepRecords)
      requires Agrees(plan, records)
      ensures ResourcesAvailable(step) <==> ResourcesFree(plan, records, step.resources)
    {
      forall t: Step
        ensures t in plan <==> t in steps
      {
        SameStepsSameMembers(plan, steps, t);
      }
    }

    /** What the scheduler offers is what the records allow. */
    lemma {:induction false} ReadyIffMayStart(plan: seq<Step>, step: Step, records: StepRecords)
      requires Agrees(plan, records) && step in steps
      ensures CanStart() && Ready(step, records) <==> MayStart(plan, maxParallelism, records, step)
    {
      SameStepsSameMembers(plan, steps, step);
      PhaseReadyIff(plan, step, records);
      ResourcesAvailableIff(plan, step, records);
      assert HasStatus(records, step.id, Failed) ==> SomeFailed(records);
    }

    /** The first step in order that may start now. */
    method NextReady(records: StepRecords) returns (r: Option<Step>)
      ensures r.Some? ==> exists i :: 0 <= i < |steps| && r.value == steps[i] && FirstReady(i, records)
      ensures r.None? ==> forall i :: 0 <= i < |steps| ==> !Ready(steps[i], records)
    {
      for i := 0 to |steps|
        invariant forall j :: 0 <= j < i ==> !Ready(steps[j], records)
      {
        if Ready(steps[i], records) {
          return Some(steps[i]);
        }
      }
      r := None;
    }

    method MarkRunning(s: StepId)
      modifies `running
      ensures running == old(running) + {s}
    {
      running := running + {s};
    }

    method MarkFinished(s: StepId)
      modifies `running
      ensures running == old(running) - {s}
    {
      running := running - {s};
    }

    method Stop()
      modifies `stopping
      ensures stopping && !CanStart()
    {
      stopping := true;
    }

    /** With nothing running and not all passed, some step of an ordered plan may start: the loop cannot get stuck. */
    lemma {:induction false} DrainedFindsAStep(records: StepRecords)
      requires Topological(steps) && running == {} && !AllPassed(steps, records)
      ensures exists i :: 0 <= i < |steps| && Ready(steps[i], records)
    {
      var i := FirstUnpassed(steps, records);
      var step := steps[i];
      EarlierStepsSuffice(steps, records, i);
      if !step.system {
        forall k | 0 <= k < |steps| && steps[k].system
          ensures StepPassed(records, steps[k].id)
        {
          assert k < i;
        }
      }
      assert Ready(steps[i], records);
    }
  }

  /** The place of a dependency in an order. */
  lemma {:induction false} EarlierDependency(ordered: seq<Step>, i: nat, d: nat) returns (j: nat)
    requires DependenciesFirst(ordered) && i < |ordered| && d < |ordered[i].dependsOn|
    ensures j < i && ordered[j].id == ordered[i].dependsOn[d]
  {
    var dependency := ordered[i].dependsOn[d];
    assert exists k :: 0 <= k < i && ordered[k].id == dependency;
    j :| 0 <= j < i && ordered[j].id == dependency;
  }

  /** When all before a step have passed, so have its dependencies. */
  lemma {:induction false} EarlierStepsSuffice(ordered: seq<Step>, records: StepRecords, i: nat)
    requires DependenciesFirst(ordered) && i < |ordered|
    requires forall j :: 0 <= j < i ==> StepPassed(records, ordered[j].id)
    ensures DependenciesPassed(ordered[i], records)
  {
    forall d | 0 <= d < |ordered[i].dependsOn|
      ensures StepPassed(records, ordered[i].dependsOn[d])
    {
      var j := EarlierDependency(ordered, i, d);
    }
  }

  lemma {:induction false} FirstUnpassed(ordered: seq<Step>, records: StepRecords) returns (i: nat)
    requires !AllPassed(ordered, records)
    ensures i < |ordered| && !StepPassed(records, ordered[i].id)
    ensures forall j :: 0 <= j < i ==> StepPassed(records, ordered[j].id)
  {
    i := 0;
    while StepPassed(records, ordered[i].id)
      invariant i < |ordered| && forall j :: 0 <= j < i ==> StepPassed(records, ordered[j].id)
      decreases |ordered| - i
    {
      if i + 1 == |ordered| {
        assert AllPassed(ordered, records);
        return;
      }
      i := i + 1;
    }
  }
}
