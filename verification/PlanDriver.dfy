/**
 The automatic driver of a plan: tool results, waits for input and the summary phase move the
 running step forward.
 */
module PlanDriver {
  import opened Wrappers
  import opened PlanState

  /** Index of the first entry with `status`, counted from 1; 0 when there is none. */
  function First(statuses: seq<StepStatus>, status: StepStatus): (index: nat)
    ensures index <= |statuses|
    ensures index > 0 ==> statuses[index - 1] == status
    ensures forall i :: 0 <= i < (if index > 0 then index - 1 else |statuses|) ==> statuses[i] != status
  {
    if statuses == [] then 0
    else
      var earlier := First(statuses[..|statuses| - 1], status);
      if earlier > 0 then earlier
      else if statuses[|statuses| - 1] == status then |statuses| else 0
  }

  function Mark(statuses: seq<StepStatus>, index: nat, status: StepStatus): seq<StepStatus>
    requires index <= |statuses|
  {
    if index == 0 then statuses else statuses[index - 1 := status]
  }

  function AfterTool(statuses: seq<StepStatus>, failed: bool): (r: seq<StepStatus>) {
    var running := First(statuses, Running);
    if running == 0 then statuses
    else if failed then Mark(statuses, running, Failed)
    else
      var done := Mark(statuses, running, Completed);
      Mark(done, First(done, NotStarted), Running)
  }

  function AfterWait(statuses: seq<StepStatus>): seq<StepStatus> {
    Mark(statuses, First(statuses, Running), WaitingInput)
  }

  /** The step handed to the summary, 0 for none. */
  function SummaryStep(statuses: seq<StepStatus>): (index: nat)
    ensures index <= |statuses|
  {
    var next := First(statuses, NotStarted);
    if next == 0 then First(statuses, Running) else next
  }

  function SummaryStarted(statuses: seq<StepStatus>): (r: seq<StepStatus>)
    ensures |r| == |statuses|
  {
    var running, next := First(statuses, Running), First(statuses, NotStarted);
    if next == 0 then statuses
    else Mark(if 0 < running < next then Mark(statuses, running, Completed) else statuses, next, Running)
  }

  /** The statuses when the summary phase is over. */
  function AfterSummary(statuses: seq<StepStatus>, failed: bool): seq<StepStatus> {
    Mark(SummaryStarted(statuses), SummaryStep(statuses), if failed then Failed else Completed)
  }

  // ---- Whole runs ---------------------------------------------------------------------------

  datatype Event = ToolResult(failed: bool) | WaitForInput | SkipStep(index: int) | AppendStep

  function After(statuses: seq<StepStatus>, event: Event): seq<StepStatus> {
    match event
    case ToolResult(failed) => AfterTool(statuses, failed)
    case WaitForInput => AfterWait(statuses)
    case SkipStep(index) => if 1 <= index <= |statuses| then statuses[index - 1 := Skipped] else statuses
    case AppendStep => statuses + [NotStarted]
  }

  function Run(statuses: seq<StepStatus>, events: seq<Event>): seq<StepStatus> {
    if events == [] then statuses else After(Run(statuses, events[..|events| - 1]), events[|events| - 1])
  }

  /** A skip changes the named step and no other, an appended step comes last. */
  lemma SkipsAndAppends(statuses: seq<StepStatus>, index: int, i: nat)
    requires i < |statuses|
    ensures After(statuses, SkipStep(index))[i] == if index == i + 1 then Skipped else statuses[i]
    ensures After(statuses, AppendStep)[i] == statuses[i]
    ensures |After(statuses, SkipStep(index))| == |statuses|
    ensures |After(statuses, AppendStep)| == |statuses| + 1 && After(statuses, AppendStep)[|statuses|] == NotStarted
  {
  }

  /** The statuses of the automatically created plan: its first step is marked running. */
  function Created(count: nat): seq<StepStatus>
    requires count > 0
  {
    seq(count, _ => NotStarted)[0 := Running]
  }

  predicate Unfinished(status: StepStatus) { status == Running || status == NotStarted }

  /** At most one step runs, and it precedes every step not started. */
  predicate Disciplined(statuses: seq<StepStatus>) {
    forall i, j :: 0 <= i < |statuses| && 0 <= j < |statuses| ==>
      (statuses[i] == Running && Unfinished(statuses[j]) ==> i <= j)
  }

  lemma ToolKeepsDiscipline(statuses: seq<StepStatus>, failed: bool)
    requires Disciplined(statuses)
    ensures Disciplined(AfterTool(statuses, failed))
  {
    var running := First(statuses, Running);
    if running > 0 && !failed {
      var done := Mark(statuses, running, Completed);
      assert forall i :: 0 <= i < |done| ==> done[i] != Running;
    }
  }

  lemma {:induction false} DriverIsDisciplined(statuses: seq<StepStatus>, events: seq<Event>)
    requires Disciplined(statuses)
    ensures Disciplined(Run(statuses, events))
    decreases |events|
  {
    if events != [] {
      DriverIsDisciplined(statuses, events[..|events| - 1]);
      var before := Run(statuses, events[..|events| - 1]);
      if events[|events| - 1].ToolResult? {
        ToolKeepsDiscipline(before, events[|events| - 1].failed);
      }
    }
  }

  predicate Idle(statuses: seq<StepStatus>) {
    forall i :: 0 <= i < |statuses| ==> statuses[i] != Running
  }

  /**
   The whole life of an automatic plan: whatever tools return, steps are skipped or appended, one
   step runs at a time and before all steps not started, and the summary phase leaves none running.
   */
  lemma AutomaticPlanIsDisciplined(count: nat, events: seq<Event>, failed: bool)
    requires count > 0
    ensures Disciplined(Run(Created(count), events))
    ensures Idle(AfterSummary(Run(Created(count), events), failed))
  {
    DriverIsDisciplined(Created(count), events);
    SummaryIdlesExactlyWhen(Run(Created(count), events), failed);
  }

  /**
   From any statuses at all, even those a model marked by hand, the summary phase ends with nothing
   running exactly when at most one step ran and no step not started came before it.
   */
  lemma SummaryIdlesExactlyWhen(statuses: seq<StepStatus>, failed: bool)
    ensures var running, next := First(statuses, Running), First(statuses, NotStarted);
            Idle(AfterSummary(statuses, failed)) <==>
            && (forall i :: 0 <= i < |statuses| && statuses[i] == Running ==> i == running - 1)
            && (running > 0 && next > 0 ==> running < next)
  {
    SummaryActs(statuses, failed);
    IdleExactlyWhen(statuses, AfterSummary(statuses, failed), First(statuses, Running), First(statuses, NotStarted));
  }

  /** What the summary phase does to every step, `running` and `next` counted from 1. */
  predicate SummaryEffect(statuses: seq<StepStatus>, after: seq<StepStatus>, running: nat, next: nat) {
    && |after| == |statuses|
    && (running > 0 ==> running <= |statuses| && statuses[running - 1] == Running)
    && (next > 0 ==> next <= |statuses| && statuses[next - 1] == NotStarted)
    && (running == 0 ==> Idle(statuses))
    && (forall i :: 0 <= i < |statuses| ==>
          if i + 1 == next || (i + 1 == running && (next == 0 || running < next)) then after[i] != Running
          else after[i] == statuses[i])
  }

  lemma SummaryStartedActs(statuses: seq<StepStatus>)
    ensures var running, next := First(statuses, Running), First(statuses, NotStarted);
            forall i :: 0 <= i < |statuses| ==>
              SummaryStarted(statuses)[i]
              == if i + 1 == next then Running
                 else if i + 1 == running < next then Completed
                 else statuses[i]
  {
  }

  lemma SummaryActs(statuses: seq<StepStatus>, failed: bool)
    ensures SummaryEffect(statuses, AfterSummary(statuses, failed),
                          First(statuses, Running), First(statuses, NotStarted))
  {
    SummaryStartedActs(statuses);
    var started, step := SummaryStarted(statuses), SummaryStep(statuses);
    assert forall i :: 0 <= i < |statuses| && i + 1 != step ==> AfterSummary(statuses, failed)[i] == started[i];
    assert step > 0 ==> AfterSummary(statuses, failed)[step - 1] != Running;
  }

  lemma IdleExactlyWhen(statuses: seq<StepStatus>, after: seq<StepStatus>, running: nat, next: nat)
    requires SummaryEffect(statuses, after, running, next)
    ensures Idle(after) <==>
            && (forall i :: 0 <= i < |statuses| && statuses[i] == Running ==> i == running - 1)
            && (running > 0 && next > 0 ==> running < next)
  {
    if 0 < next < running {
      assert after[running - 1] == Running;
    }
    forall i | 0 <= i < |statuses| && statuses[i] == Running && i != running - 1 ensures after[i] == Running {
    }
  }

  predicate Settled(status: StepStatus) { !Unfinished(status) }

  lemma SettledStepStays(statuses: seq<StepStatus>, event: Event, i: nat)
    requires i < |statuses| && Settled(statuses[i])
    requires event.SkipStep? ==> event.index != i + 1
    ensures i < |After(statuses, event)| && After(statuses, event)[i] == statuses[i]
  {
    assert i + 1 != First(statuses, Running);
    if event.ToolResult? && !event.failed && First(statuses, Running) > 0 {
      var done := Mark(statuses, First(statuses, Running), Completed);
      assert done[i] == statuses[i] && i + 1 != First(done, NotStarted);
    }
  }

  /** Progress is never undone: a settled step changes only by an explicit skip of that step. */
  lemma {:induction false} SettledStepsStay(statuses: seq<StepStatus>, events: seq<Event>, i: nat)
    requires i < |statuses| && Settled(statuses[i])
    requires forall k :: 0 <= k < |events| && events[k].SkipStep? ==> events[k].index != i + 1
    ensures i < |Run(statuses, events)| && Run(statuses, events)[i] == statuses[i]
    decreases |events|
  {
    if events != [] {
      SettledStepsStay(statuses, events[..|events| - 1], i);
      SettledStepStays(Run(statuses, events[..|events| - 1]), events[|events| - 1], i);
    }
  }

  /** The plan after `done` successes: that many steps completed, the next one running, the rest waiting. */
  function Advanced(count: nat, done: nat): seq<StepStatus> {
    seq(count, i => if i < done then Completed else if i == done then Running else NotStarted)
  }

  lemma {:induction false} FirstIs(statuses: seq<StepStatus>, status: StepStatus, i: nat)
    requires i < |statuses| && statuses[i] == status
    requires forall j :: 0 <= j < i ==> statuses[j] != status
    ensures First(statuses, status) == i + 1
  {
    assert First(statuses, status) > 0;
  }

  lemma OneSuccess(count: nat, done: nat)
    ensures AfterTool(Advanced(count, done), false) == Advanced(count, done + 1)
  {
    var statuses := Advanced(count, done);
    if done < count {
      FirstIs(statuses, Running, done);
      var closed := Mark(statuses, done + 1, Completed);
      if done + 1 < count {
        FirstIs(closed, NotStarted, done + 1);
      }
    }
  }

  /** Tool successes carry the automatic plan through its steps in order, one step each, to the end. */
  lemma {:induction false} SuccessesAdvance(count: nat, successes: nat)
    requires count > 0
    ensures Run(Created(count), seq(successes, _ => ToolResult(false))) == Advanced(count, successes)
    decreases successes
  {
    var events := seq(successes, _ => ToolResult(false));
    if successes == 0 {
      assert Created(count) == Advanced(count, 0);
    } else {
      assert events[..|events| - 1] == seq(successes - 1, _ => ToolResult(false));
      SuccessesAdvance(count, successes - 1);
      OneSuccess(count, successes - 1);
    }
  }

  predicate OnlyToolsAndWaits(events: seq<Event>) {
    forall i :: 0 <= i < |events| ==> events[i].ToolResult? || events[i].WaitForInput?
  }

  lemma {:induction false} IdlePlanStays(statuses: seq<StepStatus>, events: seq<Event>)
    requires Idle(statuses) && OnlyToolsAndWaits(events)
    ensures Run(statuses, events) == statuses
    decreases |events|
  {
    if events != [] {
      IdlePlanStays(statuses, events[..|events| - 1]);
      assert First(statuses, Running) == 0;
    }
  }

  /**
   A failed tool or a wait for input stalls the automatic plan: the step that ran is marked, and no
   later tool result or wait, successful or not, moves the plan again.
   */
  lemma FailureStallsThePlan(statuses: seq<StepStatus>, event: Event, events: seq<Event>, i: nat)
    requires Disciplined(statuses) && i < |statuses| && statuses[i] == Running
    requires event == WaitForInput || event == ToolResult(true)
    requires OnlyToolsAndWaits(events)
    ensures Run(After(statuses, event), events)
            == statuses[i := if event.WaitForInput? then WaitingInput else Failed]
  {
    FirstIs(statuses, Running, i);
    IdlePlanStays(After(statuses, event), events);
  }

  /** The step the summary works on ends as the summary did. */
  lemma SummaryStepCloses(statuses: seq<StepStatus>, failed: bool)
    ensures var step := SummaryStep(statuses);
            && (step == 0 <==> forall i :: 0 <= i < |statuses| ==> !Unfinished(statuses[i]))
            && (step > 0 ==> AfterSummary(statuses, failed)[step - 1] == if failed then Failed else Completed)
  {
    assert First(statuses, Running) > 0 ==> Unfinished(statuses[First(statuses, Running) - 1]);
    assert First(statuses, NotStarted) > 0 ==> Unfinished(statuses[First(statuses, NotStarted) - 1]);
  }

  // ---- The driver acting on the plan object ------------------------------------------------------

  method MarkNextPlanStepRunning(plan: PlanState)
    requires plan.Valid()
    modifies plan
    ensures plan.Valid() && plan.steps == old(plan.steps)
    ensures plan.stepStatus == Mark(old(plan.stepStatus), First(old(plan.stepStatus), NotStarted), Running)
  {
    var next := First(plan.stepStatus, NotStarted);
    if next > 0 {
      var _ := plan.MarkStep(next, Running, Some("continue with the next step"), None);
    }
  }

  method SyncPlanStepFromToolResult(plan: PlanState, failed: bool, summary: string, proofs: seq<string>)
    requires plan.Valid()
    modifies plan
    ensures plan.Valid() && plan.steps == old(plan.steps)
    ensures plan.stepStatus == AfterTool(old(plan.stepStatus), failed)
  {
    var running := First(plan.stepStatus, Running);
    if running == 0 {
      return;
    }
    var _ := plan.MarkStep(running, if failed then Failed else Completed, Some(summary), Some(proofs));
    if !failed {
      MarkNextPlanStepRunning(plan);
    }
  }

  method SyncRunningPlanStep(plan: PlanState, prompt: string, reason: string)
    requires plan.Valid()
    modifies plan
    ensures plan.Valid() && plan.steps == old(plan.steps)
    ensures plan.stepStatus == AfterWait(old(plan.stepStatus))
  {
    var running := First(plan.stepStatus, Running);
    if running > 0 {
      var _ := plan.MarkStep(running, WaitingInput, Some(if reason != "" then reason else prompt), Some([prompt]));
    }
  }

  method MarkSummaryStepRunning(plan: PlanState) returns (index: nat)
    requires plan.Valid()
    modifies plan
    ensures plan.Valid() && plan.steps == old(plan.steps)
    ensures index == SummaryStep(old(plan.stepStatus))
    ensures plan.stepStatus == SummaryStarted(old(plan.stepStatus))
  {
    var running := First(plan.stepStatus, Running);
    var next := First(plan.stepStatus, NotStarted);
    if next == 0 {
      return running;
    }
    if 0 < running < next {
      var _ := plan.MarkStep(running, Completed, Some("entering the summary"), None);
    }
    var _ := plan.MarkStep(next, Running, Some("writing the final result"), None);
    index := next;
  }

  method SummaryPhase(plan: PlanState, failed: bool)
    requires plan.Valid()
    modifies plan
    ensures plan.Valid() && plan.steps == old(plan.steps)
    ensures plan.stepStatus == AfterSummary(old(plan.stepStatus), failed)
  {
    var index := MarkSummaryStepRunning(plan);
    if index > 0 {
      var _ := plan.MarkStep(index, if failed then Failed else Completed, Some("summary"), None);
    }
  }
}
