/** The agent's step machine (src/vcse/agent/executor.py, state.py): executing a plan, stopping at
    the first failure, and resuming from a saved state. Tools are a deterministic function. */
module Agent {
  import opened Json
  import Text

  datatype StepStatus = Pending | Running | Completed | Failed

  datatype ExecutionStatus = InProgress | AllDone | Broken | Blocked

  /** A JSON dictionary: what tools take and return. */
  type Record = map<string, Value>

  datatype Value = Atom(text: string) | Nested(entries: map<string, Value>)

  datatype Step = Step(
    id: string,
    kind: string,
    toolName: Option<string>,
    inputs: Record,
    expectedOutput: Record,
    status: StepStatus,
    result: Option<Record>)

  datatype Plan = Plan(taskId: string, steps: seq<Step>, createdAt: string)

  datatype ExecutionState = ExecutionState(
    taskId: string,
    currentStep: int,
    completedSteps: seq<string>,
    results: map<string, Option<Record>>,
    status: ExecutionStatus)

  /** `ToolRegistry.execute`: an output, or the text of the exception it raised. */
  datatype ToolOutcome = Output(data: Record) | Raised(message: string)

  type Tools = (string, Record) -> ToolOutcome

  function FreshState(taskId: string): ExecutionState {
    ExecutionState(taskId, 0, [], map[], InProgress)
  }

  // ---- One step ----

  /** `validate_step` finds nothing to report. */
  predicate ValidStep(s: Step) {
    && Text.Strip(s.id) != ""
    && s.kind in {"tool", "query", "verify", "branch"}
    && (s.kind == "tool" ==> s.toolName.Some? && s.toolName.value != "")
  }

  /** `StateManager.update` */
  function UpdateState(state: ExecutionState, done: Step): ExecutionState {
    if !done.status.Completed? && !done.status.Failed? then state
    else
      var completed := state.completedSteps + [done.id];
      var entry :=
        if done.id !in state.results then Some(if done.result.Some? then done.result.value else map[])
        else if state.results[done.id].Some? && done.result.Some? then
          Some(state.results[done.id].value + done.result.value)
        else done.result;
      var status :=
        if done.status.Failed? then Broken
        else if |completed| == |state.results| + 1 then InProgress
        else state.status;
      ExecutionState(state.taskId, state.currentStep + 1, completed, state.results[done.id := entry], status)
  }

  datatype StepOutcome = Stepped(step: Step, state: ExecutionState) | Rejected

  /** Whether running the step ends in failure, and the result it is given. */
  predicate Fails(s: Step, tools: Tools) {
    s.kind == "tool" && s.toolName.Some? && s.toolName.value != "" && tools(s.toolName.value, s.inputs).Raised?
  }

  function ResultOf(s: Step, tools: Tools): Record {
    if s.kind == "tool" && s.toolName.Some? && s.toolName.value != "" then
      match tools(s.toolName.value, s.inputs)
      case Output(data) => data
      case Raised(message) => map["error" := Atom(message)]
    else if s.kind == "query" then map["status" := Atom("COMPLETED"), "inputs" := Nested(s.inputs)]
    else map["status" := Atom("COMPLETED")]
  }

  function Finished(s: Step, tools: Tools): Step {
    s.(status := if Fails(s, tools) then Failed else Completed, result := Some(ResultOf(s, tools)))
  }

  function StepResult(s: Step, state: ExecutionState, tools: Tools): StepOutcome {
    if !ValidStep(s) then Rejected
    else Stepped(Finished(s, tools), UpdateState(state, Finished(s, tools)))
  }

  // ---- What a step records, from its kind and its tool alone ----

  predicate ToolRaises(s: Step, tools: Tools) {
    s.kind == "tool" && s.toolName.Some? && tools(s.toolName.value, s.inputs).Raised?
  }

  /** A tool step records its tool's output, or exactly the exception's text under "error"; a query step
      its inputs; any other step the bare status. */
  predicate Records(s: Step, entry: Record, tools: Tools) {
    if s.kind == "tool" then
      s.toolName.Some? &&
      match tools(s.toolName.value, s.inputs)
      case Output(data) => entry == data
      case Raised(message) => entry.Keys == {"error"} && entry["error"] == Atom(message)
    else if s.kind == "query" then
      && entry.Keys == {"status", "inputs"}
      && entry["status"] == Atom("COMPLETED") && entry["inputs"] == Nested(s.inputs)
    else entry.Keys == {"status"} && entry["status"] == Atom("COMPLETED")
  }

  /** The step after it ran: what it records, failed exactly when its tool raised, and nothing else changed. */
  predicate StepRecorded(given: Step, step: Step, tools: Tools) {
    && step.result.Some? && Records(given, step.result.value, tools)
    && step.status == (if ToolRaises(given, tools) then Failed else Completed)
    && step.id == given.id && step.kind == given.kind && step.toolName == given.toolName
    && step.inputs == given.inputs && step.expectedOutput == given.expectedOutput
  }

  /** The state after it: one more completed step, its entry added or merged, everything else kept. */
  predicate StateRecorded(before: ExecutionState, step: Step, state: ExecutionState)
    requires step.result.Some?
  {
    && state.taskId == before.taskId
    && state.currentStep == before.currentStep + 1
    && state.completedSteps == before.completedSteps + [step.id]
    && state.results.Keys == before.results.Keys + {step.id}
    && (forall id | id in before.results && id != step.id :: state.results[id] == before.results[id])
    && (step.id !in before.results || before.results[step.id].None? ==> state.results[step.id] == step.result)
    && (step.id in before.results && before.results[step.id].Some? ==>
          state.results[step.id] == Some(before.results[step.id].value + step.result.value))
    && (step.status.Failed? ==> state.status == Broken)
    && (step.status.Completed? && |before.completedSteps| == |before.results| ==> state.status == InProgress)
    && (step.status.Completed? && |before.completedSteps| != |before.results| ==> state.status == before.status)
  }

  lemma ResultRecorded(s: Step, tools: Tools)
    requires ValidStep(s)
    ensures Records(s, ResultOf(s, tools), tools)
    ensures StepRecorded(s, Finished(s, tools), tools)
  {
    hide Records, ResultOf;
    assert s.kind == "tool" ==> s.toolName.Some? && s.toolName.value != "";
    RecordsResult(s, tools);
  }

  lemma RecordsResult(s: Step, tools: Tools)
    requires s.kind == "tool" ==> s.toolName.Some? && s.toolName.value != ""
    ensures Records(s, ResultOf(s, tools), tools)
  {
    if s.kind == "tool" {
      var outcome := tools(s.toolName.value, s.inputs);
    } else if s.kind == "query" {
      assert ResultOf(s, tools) == map["status" := Atom("COMPLETED"), "inputs" := Nested(s.inputs)];
    } else {
      assert ResultOf(s, tools) == map["status" := Atom("COMPLETED")];
    }
  }

  lemma UpdateRecorded(before: ExecutionState, done: Step)
    requires done.result.Some? && (done.status.Completed? || done.status.Failed?)
    ensures StateRecorded(before, done, UpdateState(before, done))
  {
  }

  lemma StepResultLaws(given: Step, before: ExecutionState, tools: Tools)
    ensures var outcome := StepResult(given, before, tools);
      && (outcome.Rejected? <==> !ValidStep(given))
      && (outcome.Stepped? ==>
            StepRecorded(given, outcome.step, tools) && StateRecorded(before, outcome.step, outcome.state))
  {
    hide UpdateState, StateRecorded, Records, ResultOf, ToolRaises, Fails;
    if ValidStep(given) {
      ResultRecorded(given, tools);
      UpdateRecorded(before, Finished(given, tools));
    }
  }

  /** `execute_step`; `Rejected` is the `ExecutionError` it raises for an invalid step. */
  method ExecuteStep(given: Step, before: ExecutionState, tools: Tools) returns (outcome: StepOutcome)
    ensures outcome == StepResult(given, before, tools)
    ensures outcome.Rejected? <==>
      || Text.Strip(given.id) == "" || given.kind !in {"tool", "query", "verify", "branch"}
      || (given.kind == "tool" && (given.toolName.None? || given.toolName.value == ""))
    ensures outcome.Stepped? ==> StepRecorded(given, outcome.step, tools)
    ensures outcome.Stepped? ==> StateRecorded(before, outcome.step, outcome.state)
  {
    hide UpdateState, StateRecorded, StepRecorded;
    StepResultLaws(given, before, tools);
    var step, state := given, before;
    if !ValidStep(step) {
      return Rejected;
    }
    step := step.(status := Running, result := None);
    if step.kind == "tool" && step.toolName.Some? && step.toolName.value != "" {
      match tools(step.toolName.value, step.inputs)
      case Output(data) =>
        step := step.(status := Completed, result := Some(data));
      case Raised(message) =>
        step := step.(status := Failed, result := Some(map["error" := Atom(message)]));
        state := UpdateState(state, step);
        return Stepped(step, state);
    } else if step.kind == "query" {
      step := step.(status := Completed,
                    result := Some(map["status" := Atom("COMPLETED"), "inputs" := Nested(step.inputs)]));
    } else {
      step := step.(status := Completed, result := Some(map["status" := Atom("COMPLETED")]));
    }
    state := UpdateState(state, step);
    outcome := Stepped(step, state);
  }

  // ---- The loop ----

  datatype LoopResult = LoopResult(executed: seq<Step>, state: ExecutionState)

  /** The body both loops share: stop at the first failed or rejected step. */
  function RunSteps(steps: seq<Step>, state: ExecutionState, tools: Tools): LoopResult {
    if steps == [] then LoopResult([], state)
    else
      match StepResult(steps[0], state, tools)
      case Rejected => LoopResult([steps[0]], state)
      case Stepped(step, next) =>
        if step.status.Failed? then LoopResult([step], next)
        else
          var rest := RunSteps(steps[1..], next, tools);
          LoopResult([step] + rest.executed, rest.state)
  }

  predicate AnyFailed(steps: seq<Step>) {
    exists i | 0 <= i < |steps| :: steps[i].status.Failed?
  }

  lemma {:induction false} RunFirst(steps: seq<Step>, i: nat, state: ExecutionState, tools: Tools, done: seq<Step>)
    requires i < |steps|
    ensures var outcome, run := StepResult(steps[i], state, tools), RunSteps(steps[i..], state, tools);
      && (outcome.Rejected? ==> run == LoopResult([steps[i]], state))
      && (outcome.Stepped? && outcome.step.status.Failed? ==> run == LoopResult([outcome.step], outcome.state))
      && (outcome.Stepped? && !outcome.step.status.Failed? ==>
            var rest := RunSteps(steps[i + 1..], outcome.state, tools);
            run.state == rest.state && done + run.executed == (done + [outcome.step]) + rest.executed)
  {
    hide StepResult;
    assert steps[i..][0] == steps[i] && steps[i..][1..] == steps[i + 1..];
    var outcome := StepResult(steps[i], state, tools);
    if outcome.Stepped? && !outcome.step.status.Failed? {
      var rest := RunSteps(steps[i + 1..], outcome.state, tools);
      assert done + ([outcome.step] + rest.executed) == (done + [outcome.step]) + rest.executed;
    }
  }

  method RunLoop(
      steps: seq<Step>, initial: ExecutionState, tools: Tools)
    returns (executed: seq<Step>, state: ExecutionState)
    ensures LoopResult(executed, state) == RunSteps(steps, initial, tools)
  {
    hide StepRecorded, StateRecorded, StepResult, RunSteps, Text.Strip;
    state := initial;
    executed := [];
    var i := 0;
    assert steps[0..] == steps;
    assert [] + RunSteps(steps, initial, tools).executed == RunSteps(steps, initial, tools).executed;
    while i < |steps|
      invariant 0 <= i <= |steps|
      invariant var rest := RunSteps(steps[i..], state, tools);
        RunSteps(steps, initial, tools) == LoopResult(executed + rest.executed, rest.state)
    {
      RunFirst(steps, i, state, tools, executed);
      var outcome := ExecuteStep(steps[i], state, tools);
      if outcome.Rejected? {
        executed := executed + [steps[i]];
        return;
      }
      executed := executed + [outcome.step];
      state := outcome.state;
      if outcome.step.status.Failed? {
        return;
      }
      i := i + 1;
    }
    RunNothing(steps, state, tools, executed);
  }

  lemma RunNothing(steps: seq<Step>, state: ExecutionState, tools: Tools, done: seq<Step>)
    ensures var run := RunSteps(steps[|steps|..], state, tools); run.state == state && done + run.executed == done
  {
  }

  function PlanResult(plan: Plan, initial: Option<ExecutionState>, tools: Tools): (Plan, ExecutionState) {
    var run := RunSteps(plan.steps, if initial.Some? then initial.value else FreshState(plan.taskId), tools);
    var state := run.state;
    (plan.(steps := run.executed),
     if state.completedSteps == [] then state
     else state.(status := if AnyFailed(run.executed) then Broken else AllDone))
  }

  method ExecutePlan(
      plan: Plan, initial: Option<ExecutionState>, tools: Tools)
    returns (updated: Plan, state: ExecutionState)
    ensures (updated, state) == PlanResult(plan, initial, tools)
  {
    var start := if initial.Some? then initial.value else FreshState(plan.taskId);
    var executed;
    executed, state := RunLoop(plan.steps, start, tools);
    if state.completedSteps != [] {
      if AnyFailed(executed) {
        state := state.(status := Broken);
      } else {
        state := state.(status := AllDone);
      }
    }
    updated := plan.(steps := executed);
  }

  function StepsWhere(steps: seq<Step>, ids: set<string>, inside: bool): seq<Step> {
    if steps == [] then []
    else (if (steps[0].id in ids) == inside then [steps[0]] else []) + StepsWhere(steps[1..], ids, inside)
  }

  function IdSet(ids: seq<string>): set<string> {
    set id | id in ids
  }

  function ResumeResult(plan: Plan, initial: ExecutionState, tools: Tools): (Plan, ExecutionState) {
    var ids := IdSet(initial.completedSteps);
    var remaining := StepsWhere(plan.steps, ids, false);
    if remaining == [] then (plan, initial)
    else
      var run := RunSteps(remaining, initial, tools);
      var status :=
        if AnyFailed(run.executed) then Broken
        else if run.executed != [] then AllDone
        else initial.status;
      (plan.(steps := StepsWhere(plan.steps, ids, true) + run.executed), run.state.(status := status))
  }

  method ResumeTask(plan: Plan, initial: ExecutionState, tools: Tools) returns (updated: Plan, state: ExecutionState)
    ensures (updated, state) == ResumeResult(plan, initial, tools)
  {
    var ids := IdSet(initial.completedSteps);
    var remaining := StepsWhere(plan.steps, ids, false);
    if remaining == [] {
      return plan, initial;
    }
    var executed;
    executed, state := RunLoop(remaining, initial, tools);
    var original := StepsWhere(plan.steps, ids, true);
    var status;
    if AnyFailed(executed) {
      status := Broken;
    } else if executed != [] {
      status := AllDone;
    } else {
      status := initial.status;
    }
    state := state.(status := status);
    updated := plan.(steps := original + executed);
  }

  // ---- Where a run stops ----

  function Ids(steps: seq<Step>): (ids: seq<string>)
    ensures |ids| == |steps| && forall i | 0 <= i < |steps| :: ids[i] == steps[i].id
  {
    seq(|steps|, i requires 0 <= i < |steps| => steps[i].id)
  }

  predicate DistinctIds(steps: seq<Step>) {
    forall i, j | 0 <= i < j < |steps| :: steps[i].id != steps[j].id
  }

  predicate AllValid(steps: seq<Step>) {
    forall i | 0 <= i < |steps| :: ValidStep(steps[i])
  }

  /** The number of steps completed when a run that starts at step `m` stops. */
  function StopAt(steps: seq<Step>, m: nat, tools: Tools): (q: nat)
    requires m <= |steps|
    ensures m <= q <= |steps|
    decreases |steps| - m
  {
    if m == |steps| || !ValidStep(steps[m]) then m
    else if Fails(steps[m], tools) then m + 1
    else StopAt(steps, m + 1, tools)
  }

  /** Whether the list of executed steps of that run holds one marked failed. */
  predicate FailedRun(steps: seq<Step>, m: nat, tools: Tools)
    requires m <= |steps|
    decreases |steps| - m
  {
    if m == |steps| then false
    else if !ValidStep(steps[m]) then steps[m].status.Failed?
    else Fails(steps[m], tools) || FailedRun(steps, m + 1, tools)
  }

  /** The results dictionary after the first `m` steps have run, each once. */
  function ResultsOf(steps: seq<Step>, m: nat, tools: Tools): (r: map<string, Option<Record>>)
    requires m <= |steps|
  {
    if m == 0 then map[]
    else ResultsOf(steps, m - 1, tools)[steps[m - 1].id := Some(ResultOf(steps[m - 1], tools))]
  }

  /** The state records exactly the first `m` steps of the plan, in order. */
  predicate Reached(state: ExecutionState, steps: seq<Step>, m: nat, tools: Tools)
    requires m <= |steps|
  {
    && state.currentStep == m
    && state.completedSteps == Ids(steps[..m])
    && state.results == ResultsOf(steps, m, tools)
  }

  lemma {:induction false} ResultsKeys(steps: seq<Step>, m: nat, tools: Tools)
    requires m <= |steps| && DistinctIds(steps)
    ensures ResultsOf(steps, m, tools).Keys == IdSet(Ids(steps[..m]))
    ensures |ResultsOf(steps, m, tools)| == m
  {
    hide ResultOf;
    if m > 0 {
      ResultsKeys(steps, m - 1, tools);
      assert steps[..m] == steps[..m - 1] + [steps[m - 1]];
      var ids, shorter := Ids(steps[..m]), Ids(steps[..m - 1]);
      assert ids == shorter + [steps[m - 1].id];
      assert steps[m - 1].id !in shorter;
    }
  }

  lemma {:induction false} ReachedNext(state: ExecutionState, steps: seq<Step>, m: nat, tools: Tools)
    requires m < |steps| && DistinctIds(steps) && Reached(state, steps, m, tools)
    ensures var next := UpdateState(state, Finished(steps[m], tools));
      && Reached(next, steps, m + 1, tools)
      && next.taskId == state.taskId
      && next.status == (if Fails(steps[m], tools) then Broken else InProgress)
  {
    hide Fails, ResultOf;
    ResultsKeys(steps, m, tools);
    assert steps[..m + 1] == steps[..m] + [steps[m]];
    assert Ids(steps[..m + 1]) == Ids(steps[..m]) + [steps[m].id];
    assert steps[m].id !in Ids(steps[..m]);
  }

  /** Running the remaining steps from a state that reached `m`. */
  lemma {:induction false} RunFrom(state: ExecutionState, steps: seq<Step>, m: nat, tools: Tools)
    requires m <= |steps| && DistinctIds(steps) && Reached(state, steps, m, tools)
    ensures var run := RunSteps(steps[m..], state, tools);
      && Reached(run.state, steps, StopAt(steps, m, tools), tools)
      && run.state.taskId == state.taskId
      && (AnyFailed(run.executed) <==> FailedRun(steps, m, tools))
      && (m < |steps| ==> run.executed != [])
      && (StopAt(steps, m, tools) == m ==> run.state == state)
    decreases |steps| - m
  {
    hide UpdateState, ResultOf, Reached, ValidStep, AnyFailed, Fails;
    NoneFailed();
    if m < |steps| {
      var rest := steps[m..];
      assert rest[0] == steps[m] && rest[1..] == steps[m + 1..];
      if ValidStep(steps[m]) {
        ReachedNext(state, steps, m, tools);
        if !Fails(steps[m], tools) {
          var next := UpdateState(state, Finished(steps[m], tools));
          RunFrom(next, steps, m + 1, tools);
          var tail := RunSteps(steps[m + 1..], next, tools).executed;
          AnyFailedCons(Finished(steps[m], tools), tail);
        } else {
          AnyFailedCons(Finished(steps[m], tools), []);
          assert [Finished(steps[m], tools)] + [] == RunSteps(rest, state, tools).executed;
        }
      } else {
        AnyFailedCons(steps[m], []);
        assert [steps[m]] + [] == RunSteps(rest, state, tools).executed;
      }
    }
  }

  lemma {:induction false} AnyFailedCons(step: Step, tail: seq<Step>)
    ensures AnyFailed([step] + tail) <==> step.status.Failed? || AnyFailed(tail)
  {
    var all := [step] + tail;
    assert all[0] == step && forall i | 0 <= i < |tail| :: all[i + 1] == tail[i];
  }

  lemma NoneFailed()
    ensures !AnyFailed([])
  {
  }

  lemma {:induction false} FreshReached(taskId: string, steps: seq<Step>, tools: Tools)
    ensures Reached(FreshState(taskId), steps, 0, tools)
  {
    assert Ids(steps[..0]) == [];
  }

  /** Skipping the completed steps of a state that reached `m` leaves exactly the steps from `m` on. */
  lemma {:induction false} RemainingSteps(steps: seq<Step>, m: nat)
    requires m <= |steps| && DistinctIds(steps)
    ensures StepsWhere(steps, IdSet(Ids(steps[..m])), false) == steps[m..]
    ensures StepsWhere(steps, IdSet(Ids(steps[..m])), true) == steps[..m]
  {
    var ids := IdSet(Ids(steps[..m]));
    forall i | 0 <= i < |steps| ensures steps[i].id in ids <==> i < m {
      if i < m { assert Ids(steps[..m])[i] == steps[i].id; }
    }
    SplitWhere(steps, ids, m);
  }

  lemma {:induction false} SplitWhere(steps: seq<Step>, ids: set<string>, m: nat)
    requires m <= |steps|
    requires forall i | 0 <= i < |steps| :: steps[i].id in ids <==> i < m
    ensures StepsWhere(steps, ids, false) == steps[m..]
    ensures StepsWhere(steps, ids, true) == steps[..m]
  {
    if steps != [] {
      var rest := steps[1..];
      var k := if m == 0 then 0 else m - 1;
      forall i | 0 <= i < |rest| ensures rest[i].id in ids <==> i < k {
        assert rest[i] == steps[i + 1];
      }
      SplitWhere(rest, ids, k);
      if m > 0 {
        assert steps[m..] == rest[m - 1..];
        assert steps[..m] == [steps[0]] + rest[..m - 1];
      } else {
        assert steps[0..] == [steps[0]] + rest[0..];
      }
    }
  }

  // ---- What one run and one resume do ----

  lemma {:induction false} PlanRun(plan: Plan, tools: Tools)
    requires DistinctIds(plan.steps)
    ensures var q := StopAt(plan.steps, 0, tools);
      var state := PlanResult(plan, None, tools).1;
      && Reached(state, plan.steps, q, tools)
      && state.taskId == plan.taskId
      && state.status == (if q == 0 then InProgress else if FailedRun(plan.steps, 0, tools) then Broken else AllDone)
  {
    hide RunSteps, AnyFailed, FailedRun, StopAt, ResultsOf;
    var start := FreshState(plan.taskId);
    FreshReached(plan.taskId, plan.steps, tools);
    RunFrom(start, plan.steps, 0, tools);
    assert plan.steps[0..] == plan.steps;
  }

  lemma {:induction false} ResumeRun(plan: Plan, state: ExecutionState, m: nat, tools: Tools)
    requires DistinctIds(plan.steps) && m <= |plan.steps| && Reached(state, plan.steps, m, tools)
    ensures var (updated, next) := ResumeResult(plan, state, tools);
      && Reached(next, plan.steps, StopAt(plan.steps, m, tools), tools)
      && next.taskId == state.taskId
      && (m == |plan.steps| ==> next == state)
      && (m < |plan.steps| ==>
          && next.status == (if FailedRun(plan.steps, m, tools) then Broken else AllDone)
          && updated.steps == plan.steps[..m] + RunSteps(plan.steps[m..], state, tools).executed)
  {
    hide RunSteps, AnyFailed, FailedRun, ResultsOf, StepsWhere;
    RemainingSteps(plan.steps, m);
    RunFrom(state, plan.steps, m, tools);
  }

  // ---- Checkpoint and resume against an uninterrupted run ----

  /** The first `k` steps run to success. */
  predicate Succeeds(steps: seq<Step>, k: nat, tools: Tools)
    requires k <= |steps|
  {
    forall i | 0 <= i < k :: ValidStep(steps[i]) && !Fails(steps[i], tools)
  }

  lemma {:induction false} StopPastSuccess(steps: seq<Step>, i: nat, k: nat, tools: Tools)
    requires i <= k <= |steps| && Succeeds(steps, k, tools)
    ensures StopAt(steps, i, tools) == StopAt(steps, k, tools)
    ensures FailedRun(steps, i, tools) == FailedRun(steps, k, tools)
    decreases k - i
  {
    hide Fails, ValidStep;
    if i < k {
      StopPastSuccess(steps, i + 1, k, tools);
    }
  }

  /** Stopping after `k` successful steps and resuming against the original plan gives the state of
      an uninterrupted run, later failure included, exactly when a step remains to be run and the
      run was not rejected at its very first step; or the plan is empty. The condition excludes
      the checkpoint taken after the last step, whose status a resume never finalises. */
  lemma {:induction false} ResumeEqualsRunIff(plan: Plan, k: nat, checkpoint: ExecutionState, tools: Tools)
    requires DistinctIds(plan.steps) && k <= |plan.steps| && Succeeds(plan.steps, k, tools)
    requires Reached(checkpoint, plan.steps, k, tools)
    requires checkpoint.taskId == plan.taskId && checkpoint.status == InProgress
    ensures ResumeResult(plan, checkpoint, tools).1 == PlanResult(plan, None, tools).1 <==>
            plan.steps == [] || (k < |plan.steps| && (k > 0 || ValidStep(plan.steps[0])))
  {
    hide RunSteps, AnyFailed, ResultsOf, StepsWhere, ResumeResult, PlanResult, ResultOf;
    PlanRun(plan, tools);
    ResumeRun(plan, checkpoint, k, tools);
    StopPastSuccess(plan.steps, 0, k, tools);
  }

  lemma {:induction false} SuccessFrom(state: ExecutionState, steps: seq<Step>, i: nat, k: nat, tools: Tools)
    requires i <= k <= |steps| && DistinctIds(steps) && Succeeds(steps, k, tools)
    requires Reached(state, steps, i, tools) && state.status == InProgress
    ensures var after := RunSteps(steps[i..k], state, tools).state;
      Reached(after, steps, k, tools) && after.taskId == state.taskId && after.status == InProgress
    decreases k - i
  {
    hide Reached, UpdateState, Fails, ResultOf;
    var rest := steps[i..k];
    if i < k {
      assert rest[0] == steps[i] && rest[1..] == steps[i + 1..k];
      ReachedNext(state, steps, i, tools);
      SuccessFrom(UpdateState(state, Finished(steps[i], tools)), steps, i + 1, k, tools);
      FinishedStatus(steps[i], tools);
    }
  }

  lemma FinishedStatus(s: Step, tools: Tools)
    ensures Finished(s, tools).status.Failed? <==> Fails(s, tools)
  {
  }

  /** The state after running the first `k` steps of the plan, all of them successful, is a checkpoint. */
  lemma {:induction false} CheckpointReached(plan: Plan, k: nat, tools: Tools)
    requires DistinctIds(plan.steps) && k <= |plan.steps| && Succeeds(plan.steps, k, tools)
    ensures var checkpoint := RunSteps(plan.steps[..k], FreshState(plan.taskId), tools).state;
      && Reached(checkpoint, plan.steps, k, tools)
      && checkpoint.taskId == plan.taskId && checkpoint.status == InProgress
  {
    FreshReached(plan.taskId, plan.steps, tools);
    assert plan.steps[0..k] == plan.steps[..k];
    SuccessFrom(FreshState(plan.taskId), plan.steps, 0, k, tools);
  }

  /** The same of an actual run, stopped after its first `k` steps and resumed. */
  lemma {:induction false} StopAndResumeIff(plan: Plan, k: nat, tools: Tools)
    requires DistinctIds(plan.steps) && k <= |plan.steps| && Succeeds(plan.steps, k, tools)
    ensures var checkpoint := RunSteps(plan.steps[..k], FreshState(plan.taskId), tools).state;
      ResumeResult(plan, checkpoint, tools).1 == PlanResult(plan, None, tools).1 <==>
      plan.steps == [] || (k < |plan.steps| && (k > 0 || ValidStep(plan.steps[0])))
  {
    hide RunSteps, Reached, ResumeResult, PlanResult, ValidStep, Succeeds;
    CheckpointReached(plan, k, tools);
    ResumeEqualsRunIff(plan, k, RunSteps(plan.steps[..k], FreshState(plan.taskId), tools).state, tools);
  }

  /** The updated plan of a resume keeps the skipped steps as they were in the original plan. */
  lemma {:induction false} ResumedPlan(plan: Plan, k: nat, checkpoint: ExecutionState, tools: Tools)
    requires DistinctIds(plan.steps) && k < |plan.steps| && Succeeds(plan.steps, k, tools)
    requires Reached(checkpoint, plan.steps, k, tools)
    ensures var resumed, whole := ResumeResult(plan, checkpoint, tools).0, PlanResult(plan, None, tools).0;
      && |resumed.steps| == |whole.steps| > k
      && resumed.steps[..k] == plan.steps[..k]
      && resumed.steps[k..] == whole.steps[k..]
  {
    hide Fails, ValidStep, UpdateState, ResultOf, StepsWhere, RunSteps, ResultsOf, StopAt, FailedRun;
    ResumeRun(plan, checkpoint, k, tools);
    RunFrom(checkpoint, plan.steps, k, tools);
    var start := FreshState(plan.taskId);
    FreshReached(plan.taskId, plan.steps, tools);
    assert plan.steps[0..] == plan.steps;
    ExecutedSuffix(plan.steps, 0, k, start, checkpoint, tools);
  }

  lemma {:induction false} ExecutedSuffix(
      steps: seq<Step>, i: nat, k: nat, state: ExecutionState, later: ExecutionState, tools: Tools)
    requires i <= k <= |steps| && Succeeds(steps, k, tools)
    ensures var all := RunSteps(steps[i..], state, tools).executed;
      |all| >= k - i && all[k - i..] == RunSteps(steps[k..], later, tools).executed
    decreases k - i
  {
    hide Fails, ValidStep, UpdateState, ResultOf;
    if i == k {
      ExecutedIndependent(steps[k..], state, later, tools);
    } else {
      assert steps[i..][0] == steps[i] && steps[i..][1..] == steps[i + 1..];
      var next := UpdateState(state, Finished(steps[i], tools));
      ExecutedSuffix(steps, i + 1, k, next, later, tools);
      var all, rest := RunSteps(steps[i..], state, tools).executed, RunSteps(steps[i + 1..], next, tools).executed;
      assert all == [Finished(steps[i], tools)] + rest;
      assert all[k - i..] == rest[k - i - 1..];
    }
  }

  /** What is executed does not depend on the state it starts from. */
  lemma {:induction false} ExecutedIndependent(steps: seq<Step>, a: ExecutionState, b: ExecutionState, tools: Tools)
    ensures RunSteps(steps, a, tools).executed == RunSteps(steps, b, tools).executed
  {
    if steps != [] && ValidStep(steps[0]) {
      var done := Finished(steps[0], tools);
      ExecutedIndependent(steps[1..], UpdateState(a, done), UpdateState(b, done), tools);
    }
  }

  // ---- Any number of resumes ----

  /** The state after `execute_plan` and then `r` calls of `resume_task` on the original plan. */
  function Session(plan: Plan, r: nat, tools: Tools): ExecutionState {
    if r == 0 then PlanResult(plan, None, tools).1
    else ResumeResult(plan, Session(plan, r - 1, tools), tools).1
  }

  /** How many steps that state has completed. */
  function Position(steps: seq<Step>, r: nat, tools: Tools): (m: nat)
    ensures m <= |steps|
  {
    StopAt(steps, if r == 0 then 0 else Position(steps, r - 1, tools), tools)
  }

  /** In every state of every session: the completed steps are a prefix of the plan's ids without
      repeats, `current_step` counts them, and the results hold each one's own outcome, no more. */
  lemma {:induction false} SessionInvariant(plan: Plan, r: nat, tools: Tools)
    requires DistinctIds(plan.steps)
    ensures var state, m := Session(plan, r, tools), Position(plan.steps, r, tools);
      && Reached(state, plan.steps, m, tools)
      && state.completedSteps <= Ids(plan.steps)
      && (forall i, j | 0 <= i < j < |state.completedSteps| :: state.completedSteps[i] != state.completedSteps[j])
      && state.currentStep == |state.completedSteps|
      && state.results.Keys == IdSet(state.completedSteps)
      && (forall i | 0 <= i < m :: HoldsOutcome(state, plan.steps[i], tools))
  {
    hide PlanResult, ResumeResult, StopAt, ResultOf, HoldsOutcome;
    SessionReached(plan, r, tools);
    var m := Position(plan.steps, r, tools);
    ResultsKeys(plan.steps, m, tools);
    PositionValid(plan.steps, r, tools);
    forall i | 0 <= i < m ensures HoldsOutcome(Session(plan, r, tools), plan.steps[i], tools) {
      ReachedHolds(Session(plan, r, tools), plan.steps, m, i, tools);
    }
  }

  lemma {:induction false} StopValid(steps: seq<Step>, m: nat, tools: Tools)
    requires m <= |steps|
    ensures forall i | m <= i < StopAt(steps, m, tools) :: ValidStep(steps[i])
    decreases |steps| - m
  {
    hide ValidStep, Fails;
    if m < |steps| && ValidStep(steps[m]) && !Fails(steps[m], tools) {
      StopValid(steps, m + 1, tools);
    }
  }

  lemma {:induction false} PositionValid(steps: seq<Step>, r: nat, tools: Tools)
    ensures forall i | 0 <= i < Position(steps, r, tools) :: ValidStep(steps[i])
  {
    hide ValidStep, StopAt;
    if r == 0 {
      StopValid(steps, 0, tools);
    } else {
      PositionValid(steps, r - 1, tools);
      StopValid(steps, Position(steps, r - 1, tools), tools);
    }
  }

  /** The state holds what the step recorded when it ran. */
  predicate HoldsOutcome(state: ExecutionState, s: Step, tools: Tools) {
    s.id in state.results && state.results[s.id].Some? && Records(s, state.results[s.id].value, tools)
  }

  lemma {:induction false} ReachedHolds(state: ExecutionState, steps: seq<Step>, m: nat, i: nat, tools: Tools)
    requires i < m <= |steps| && DistinctIds(steps) && Reached(state, steps, m, tools)
    requires ValidStep(steps[i])
    ensures HoldsOutcome(state, steps[i], tools)
  {
    hide ValidStep, ResultsOf, ResultOf;
    ResultsLookup(steps, m, i, tools);
    ResultRecorded(steps[i], tools);
  }

  lemma {:induction false} ResultsLookup(steps: seq<Step>, m: nat, i: nat, tools: Tools)
    requires i < m <= |steps| && DistinctIds(steps)
    ensures steps[i].id in ResultsOf(steps, m, tools)
    ensures ResultsOf(steps, m, tools)[steps[i].id] == Some(ResultOf(steps[i], tools))
  {
    if i < m - 1 {
      ResultsLookup(steps, m - 1, i, tools);
    }
  }

  lemma {:induction false} SessionReached(plan: Plan, r: nat, tools: Tools)
    requires DistinctIds(plan.steps)
    ensures Reached(Session(plan, r, tools), plan.steps, Position(plan.steps, r, tools), tools)
  {
    hide PlanResult, ResumeResult, StopAt, Reached;
    if r == 0 {
      PlanRun(plan, tools);
    } else {
      SessionReached(plan, r - 1, tools);
      ResumeRun(plan, Session(plan, r - 1, tools), Position(plan.steps, r - 1, tools), tools);
    }
  }

  /** A resume with steps remaining makes progress exactly when the next step is valid; a session
      held up by an invalid step stays where it is. */
  lemma {:induction false} ResumeProgressIff(plan: Plan, r: nat, tools: Tools)
    requires DistinctIds(plan.steps)
    requires Position(plan.steps, r, tools) < |plan.steps|
    ensures |Session(plan, r + 1, tools).completedSteps| > |Session(plan, r, tools).completedSteps| <==>
            ValidStep(plan.steps[Position(plan.steps, r, tools)])
    ensures Session(plan, r, tools).completedSteps <= Session(plan, r + 1, tools).completedSteps
  {
    hide Session, ResultsOf, ValidStep;
    SessionReached(plan, r, tools);
    SessionReached(plan, r + 1, tools);
    var m, n := Position(plan.steps, r, tools), Position(plan.steps, r + 1, tools);
    assert Ids(plan.steps[..m]) == Ids(plan.steps[..n])[..m];
  }

  /** Failing steps among the first `m`. */
  function Failures(steps: seq<Step>, m: nat, tools: Tools): nat
    requires m <= |steps|
  {
    if m == 0 then 0 else Failures(steps, m - 1, tools) + (if Fails(steps[m - 1], tools) then 1 else 0)
  }

  lemma {:induction false} FailuresToStop(steps: seq<Step>, m: nat, tools: Tools)
    requires m < |steps| && AllValid(steps)
    ensures var q := StopAt(steps, m, tools);
      && q > m
      && (q < |steps| ==> Failures(steps, q, tools) == Failures(steps, m, tools) + 1)
      && (q == |steps| ==> Failures(steps, q - 1, tools) == Failures(steps, m, tools))
      && (FailedRun(steps, m, tools) <==> Fails(steps[q - 1], tools))
      && (q < |steps| ==> Fails(steps[q - 1], tools))
    decreases |steps| - m
  {
    hide Fails, ValidStep;
    if !Fails(steps[m], tools) && m + 1 < |steps| {
      FailuresToStop(steps, m + 1, tools);
    }
  }

  /** Each run ends at a failure until the plan is exhausted. */
  lemma {:induction false} PositionAndFailures(steps: seq<Step>, r: nat, tools: Tools)
    requires steps != [] && AllValid(steps)
    ensures var m := Position(steps, r, tools);
      && (m < |steps| ==> Failures(steps, m, tools) == r + 1 && Fails(steps[m - 1], tools))
      && (m == |steps| ==> Failures(steps, m - 1, tools) <= r)
      && m > 0
  {
    hide Fails, ValidStep, StopAt;
    if r == 0 {
      FailuresToStop(steps, 0, tools);
    } else {
      PositionAndFailures(steps, r - 1, tools);
      var m := Position(steps, r - 1, tools);
      if m < |steps| {
        FailuresToStop(steps, m, tools);
      } else {
        StopAtEnd(steps, tools);
      }
    }
  }

  lemma {:induction false} StopAtEnd(steps: seq<Step>, tools: Tools)
    ensures StopAt(steps, |steps|, tools) == |steps|
  {
  }

  lemma {:induction false} FailuresMonotone(steps: seq<Step>, a: nat, b: nat, tools: Tools)
    requires a <= b <= |steps|
    ensures Failures(steps, a, tools) <= Failures(steps, b, tools) <= Failures(steps, a, tools) + (b - a)
    decreases b
  {
    if a < b {
      FailuresMonotone(steps, a, b - 1, tools);
    }
  }

  /** A session over valid steps is exhausted after `r` resumes exactly when at most `r` steps before
      the last one fail; so as many resumes as there are steps before the last are always enough. */
  lemma {:induction false} ExhaustedIff(plan: Plan, r: nat, tools: Tools)
    requires DistinctIds(plan.steps) && AllValid(plan.steps) && plan.steps != []
    ensures Session(plan, r, tools).completedSteps == Ids(plan.steps) <==>
            Failures(plan.steps, |plan.steps| - 1, tools) <= r
    ensures r >= |plan.steps| - 1 ==> Session(plan, r, tools).completedSteps == Ids(plan.steps)
  {
    hide Session, Fails, ValidStep, ResultsOf, Position, StopAt, DistinctIds;
    var n, m := |plan.steps|, Position(plan.steps, r, tools);
    SessionReached(plan, r, tools);
    PositionAndFailures(plan.steps, r, tools);
    FailuresMonotone(plan.steps, 0, n - 1, tools);
    if m < n {
      FailuresMonotone(plan.steps, m, n - 1, tools);
      assert |Ids(plan.steps[..m])| == m;
    } else {
      assert plan.steps[..m] == plan.steps;
    }
  }

  /** The reported status speaks for the last run only: a session over valid steps ends `COMPLETED`
      exactly when the last step of the plan succeeds, whatever failed before it. */
  lemma {:induction false} FinalStatusIff(plan: Plan, r: nat, tools: Tools)
    requires DistinctIds(plan.steps) && AllValid(plan.steps) && plan.steps != []
    ensures var n := |plan.steps|; var state := Session(plan, r, tools);
      && (state.status == AllDone <==>
          state.completedSteps == Ids(plan.steps) && !Fails(plan.steps[n - 1], tools))
      && (state.status == Broken <==> state.status != AllDone)
  {
    hide Fails, ValidStep, ResultsOf, PlanResult, ResumeResult, StopAt, FailedRun, DistinctIds;
    var n, m := |plan.steps|, Position(plan.steps, r, tools);
    SessionReached(plan, r, tools);
    PositionAndFailures(plan.steps, r, tools);
    assert plan.steps[..n] == plan.steps;
    assert |Ids(plan.steps[..m])| == m;
    if r == 0 {
      PlanRun(plan, tools);
      FailuresToStop(plan.steps, 0, tools);
    } else {
      var before := Position(plan.steps, r - 1, tools);
      SessionReached(plan, r - 1, tools);
      ResumeRun(plan, Session(plan, r - 1, tools), before, tools);
      if before < n {
        FailuresToStop(plan.steps, before, tools);
      } else {
        FinalStatusIff(plan, r - 1, tools);
        assert |Ids(plan.steps[..before])| == before;
      }
    }
  }

  /** The ids of the steps executed by each run of a session, in order. */
  function ExecutedIds(plan: Plan, r: nat, tools: Tools): seq<string> {
    if r == 0 then Ids(RunSteps(plan.steps, FreshState(plan.taskId), tools).executed)
    else
      var state := Session(plan, r - 1, tools);
      ExecutedIds(plan, r - 1, tools) +
      Ids(RunSteps(StepsWhere(plan.steps, IdSet(state.completedSteps), false), state, tools).executed)
  }

  /** Over a whole session no valid step runs twice: what was executed is what was completed. */
  lemma {:induction false} EachStepRunsOnce(plan: Plan, r: nat, tools: Tools)
    requires DistinctIds(plan.steps) && AllValid(plan.steps)
    ensures ExecutedIds(plan, r, tools) == Session(plan, r, tools).completedSteps
  {
    hide ResultsOf, PlanResult, ResumeResult, RunSteps, StepsWhere, Fails, ValidStep, StopAt, Ids, DistinctIds,
      AllValid;
    SessionReached(plan, r, tools);
    if r == 0 {
      assert plan.steps[0..] == plan.steps;
      ExecutedSpan(plan.steps, 0, FreshState(plan.taskId), tools);
      IdsSpan(plan.steps, 0, StopAt(plan.steps, 0, tools));
    } else {
      EachStepRunsOnce(plan, r - 1, tools);
      SessionReached(plan, r - 1, tools);
      var state, m := Session(plan, r - 1, tools), Position(plan.steps, r - 1, tools);
      RemainingSteps(plan.steps, m);
      ExecutedSpan(plan.steps, m, state, tools);
      var q := StopAt(plan.steps, m, tools);
      IdsSpan(plan.steps, m, q);
    }
  }

  lemma {:induction false} IdsSpan(steps: seq<Step>, m: nat, q: nat)
    requires m <= q <= |steps|
    ensures Ids(steps[..q]) == Ids(steps[..m]) + Ids(steps[m..q])
    ensures steps[0..q] == steps[..q]
  {
  }

  lemma {:induction false} ExecutedSpan(steps: seq<Step>, m: nat, state: ExecutionState, tools: Tools)
    requires m <= |steps| && AllValid(steps)
    ensures Ids(RunSteps(steps[m..], state, tools).executed) == Ids(steps[m..StopAt(steps, m, tools)])
    decreases |steps| - m
  {
    hide Fails, ValidStep, UpdateState, ResultOf;
    if m < |steps| {
      var rest := steps[m..];
      assert rest[0] == steps[m] && rest[1..] == steps[m + 1..];
      var q := StopAt(steps, m, tools);
      if !Fails(steps[m], tools) {
        ExecutedSpan(steps, m + 1, UpdateState(state, Finished(steps[m], tools)), tools);
        assert steps[m..q] == [steps[m]] + steps[m + 1..q];
      }
    }
  }

  lemma {:induction false} ExecutedSteps(steps: seq<Step>, m: nat, state: ExecutionState, tools: Tools)
    requires m <= |steps|
    ensures var q, out := StopAt(steps, m, tools), RunSteps(steps[m..], state, tools).executed;
      && q - m <= |out| <= q - m + 1
      && (|out| == q - m + 1 <==> q < |steps| && !ValidStep(steps[q]) && (q == m || !ToolRaises(steps[q - 1], tools)))
      && (forall i | m <= i < q :: StepRecorded(steps[i], out[i - m], tools))
      && (|out| == q - m + 1 ==> out[q - m] == steps[q])
    decreases |steps| - m
  {
    hide ValidStep, UpdateState, ResultOf, StepRecorded;
    if m < |steps| {
      var rest := steps[m..];
      assert rest[0] == steps[m] && rest[1..] == steps[m + 1..];
      if ValidStep(steps[m]) {
        ResultRecorded(steps[m], tools);
        RaisesIsFails(steps[m], tools);
        var done := Finished(steps[m], tools);
        if !Fails(steps[m], tools) {
          ExecutedSteps(steps, m + 1, UpdateState(state, done), tools);
          var later := RunSteps(steps[m + 1..], UpdateState(state, done), tools).executed;
          assert RunSteps(rest, state, tools).executed == [done] + later;
        }
      }
    }
  }

  lemma RaisesIsFails(s: Step, tools: Tools)
    requires ValidStep(s)
    ensures ToolRaises(s, tools) <==> Fails(s, tools)
  {
  }

  /** The plan a run returns: the executed steps as they recorded themselves, then at most the invalid
      step that stopped the run, unchanged; task and creation time are the plan's. */
  lemma {:induction false} UpdatedPlan(plan: Plan, tools: Tools)
    ensures var updated, q := PlanResult(plan, None, tools).0, StopAt(plan.steps, 0, tools);
      && updated.taskId == plan.taskId && updated.createdAt == plan.createdAt
      && q <= |updated.steps| <= q + 1
      && (forall i | 0 <= i < q :: StepRecorded(plan.steps[i], updated.steps[i], tools))
      && (|updated.steps| == q + 1 ==>
            q < |plan.steps| && updated.steps[q] == plan.steps[q] && !ValidStep(plan.steps[q]))
  {
    hide RunSteps, StepRecorded, StopAt, ValidStep, AnyFailed, ToolRaises;
    ExecutedSteps(plan.steps, 0, FreshState(plan.taskId), tools);
    assert plan.steps[0..] == plan.steps;
  }

  /** A run can report `COMPLETED` with steps left over, exactly when an invalid step not itself marked
      failed comes after at least one step, all of them successful. */
  lemma {:induction false} CompletedEarlyIff(plan: Plan, tools: Tools)
    requires DistinctIds(plan.steps)
    ensures var state := PlanResult(plan, None, tools).1;
      (state.status == AllDone && state.completedSteps != Ids(plan.steps)) <==>
      exists k | 0 < k < |plan.steps| ::
        Succeeds(plan.steps, k, tools) && !ValidStep(plan.steps[k]) && !plan.steps[k].status.Failed?
  {
    hide PlanResult, ResultsOf, ValidStep, Fails;
    PlanRun(plan, tools);
    var n, q := |plan.steps|, StopAt(plan.steps, 0, tools);
    assert |Ids(plan.steps[..q])| == q;
    assert plan.steps[..n] == plan.steps;
    if k :| 0 < k < n && Succeeds(plan.steps, k, tools) && !ValidStep(plan.steps[k]) && !plan.steps[k].status.Failed? {
      StopPastSuccess(plan.steps, 0, k, tools);
    }
    if !FailedRun(plan.steps, 0, tools) {
      CleanStop(plan.steps, 0, tools);
    }
  }

  lemma {:induction false} CleanStop(steps: seq<Step>, m: nat, tools: Tools)
    requires m <= |steps| && !FailedRun(steps, m, tools)
    ensures var q := StopAt(steps, m, tools);
      && (forall i | m <= i < q :: ValidStep(steps[i]) && !Fails(steps[i], tools))
      && (q < |steps| ==> !ValidStep(steps[q]) && !steps[q].status.Failed?)
    decreases |steps| - m
  {
    hide Fails, ValidStep;
    if m < |steps| && ValidStep(steps[m]) {
      CleanStop(steps, m + 1, tools);
    }
  }
}
