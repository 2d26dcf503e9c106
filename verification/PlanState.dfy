/** The in-memory plan: four parallel lists changed in place. */
module PlanState {
  import opened Wrappers
  import opened ContextBudget

  /** The status text of a plan step; `Other` is any text the driver never writes. */
  datatype StepStatus =
    | NotStarted | Running | Completed | Failed | Cancelled | WaitingInput | Skipped | Other(text: string)
  {
    /** The statuses `mark_step` accepts. */
    predicate Markable() { Running? || Completed? || Failed? || WaitingInput? || Skipped? }
  }

  /** `list` padded with `pad` or cut to `length` entries. */
  function Synced<T>(list: seq<T>, length: nat, pad: T): (r: seq<T>)
    ensures |r| == length && forall i :: 0 <= i < length ==> r[i] == if i < |list| then list[i] else pad
  {
    if |list| < length then list + seq(length - |list|, _ => pad) else list[..length]
  }

  /** `item` stands at `at`; what stood before it stays, what stood there or after moves up by one. */
  function InsertAt<T>(list: seq<T>, at: nat, item: T): (r: seq<T>)
    requires at <= |list|
    ensures |r| == |list| + 1 && r[at] == item
    ensures forall i :: 0 <= i < at ==> r[i] == list[i]
    ensures forall i :: at <= i < |list| ==> r[i + 1] == list[i]
  {
    list[..at] + [item] + list[at..]
  }

  class PlanState {
    var title: string
    var steps: seq<string>
    var stepStatus: seq<StepStatus>
    var notes: seq<string>
    var evidence: seq<seq<string>>

    /** The four lists run in parallel. */
    ghost predicate Valid()
      reads this
    {
      |stepStatus| == |notes| == |evidence| == |steps|
    }

    constructor (title: string, steps: seq<string>, stepStatus: seq<StepStatus>, notes: seq<string>,
                 evidence: seq<seq<string>>)
      ensures Valid() && this.title == title && this.steps == steps
      ensures this.stepStatus == Synced(stepStatus, |steps|, NotStarted)
      ensures this.notes == Synced(notes, |steps|, "") && this.evidence == Synced(evidence, |steps|, [])
    {
      this.title := title;
      this.steps := steps;
      this.stepStatus := stepStatus;
      this.notes := notes;
      this.evidence := evidence;
      new;
      SyncLengths();
    }

    method SyncLengths()
      modifies this`stepStatus, this`notes, this`evidence
      ensures Valid()
      ensures stepStatus == Synced(old(stepStatus), |steps|, NotStarted)
      ensures notes == Synced(old(notes), |steps|, "") && evidence == Synced(old(evidence), |steps|, [])
    {
      stepStatus := Synced(stepStatus, |steps|, NotStarted);
      notes := Synced(notes, |steps|, "");
      evidence := Synced(evidence, |steps|, []);
    }

    /** A step keeps its record exactly when the new list has the same text at the same place. */
    method Update(newTitle: string, newSteps: Option<seq<string>>)
      requires Valid()
      modifies this
      ensures Valid()
      ensures title == (if newTitle != "" then newTitle else old(title))
      ensures newSteps.None? ==>
        steps == old(steps) && stepStatus == old(stepStatus) && notes == old(notes) && evidence == old(evidence)
      ensures newSteps.Some? ==> steps == newSteps.value
      ensures newSteps.Some? ==> forall i :: 0 <= i < |steps| ==>
        if i < |old(steps)| && steps[i] == old(steps)[i]
        then stepStatus[i] == old(stepStatus)[i] && notes[i] == old(notes)[i] && evidence[i] == old(evidence)[i]
        else stepStatus[i] == NotStarted && notes[i] == "" && evidence[i] == []
    {
      if newTitle != "" {
        title := newTitle;
      }
      if newSteps.None? {
        return;
      }
      var status: seq<StepStatus>, texts: seq<string>, proofs: seq<seq<string>> := [], [], [];
      for i := 0 to |newSteps.value|
        invariant |status| == |texts| == |proofs| == i
        invariant forall j :: 0 <= j < i ==>
          if j < |steps| && newSteps.value[j] == steps[j]
          then status[j] == stepStatus[j] && texts[j] == notes[j] && proofs[j] == evidence[j]
          else status[j] == NotStarted && texts[j] == "" && proofs[j] == []
      {
        if i < |steps| && newSteps.value[i] == steps[i] {
          status, texts, proofs := status + [stepStatus[i]], texts + [notes[i]], proofs + [evidence[i]];
        } else {
          status, texts, proofs := status + [NotStarted], texts + [""], proofs + [[]];
        }
      }
      steps := newSteps.value;
      stepStatus, notes, evidence := status, texts, proofs;
      SyncLengths();
    }

    /** `ok` is false where the source raises; nothing changes then. `index` counts from 1. */
    method MarkStep(index: int, status: StepStatus, note: Option<string>, proofs: Option<seq<string>>) returns (ok: bool)
      requires Valid()
      modifies this`stepStatus, this`notes, this`evidence
      ensures Valid()
      ensures ok <==> status.Markable() && 1 <= index <= |steps|
      ensures !ok ==> stepStatus == old(stepStatus) && notes == old(notes) && evidence == old(evidence)
      ensures ok ==>
        && stepStatus == old(stepStatus)[index - 1 := status]
        && notes == (if note.Some? then old(notes)[index - 1 := note.value] else old(notes))
        && evidence == (if proofs.Some? then old(evidence)[index - 1 := proofs.value] else old(evidence))
    {
      if !status.Markable() || index < 1 || index > |steps| {
        return false;
      }
      stepStatus := stepStatus[index - 1 := status];
      if note.Some? {
        notes := notes[index - 1 := note.value];
      }
      if proofs.Some? {
        evidence := evidence[index - 1 := proofs.value];
      }
      ok := true;
    }

    /** The 1-based index of the new step, or `None` where the source rejects a blank step. */
    method AddStep(step: string, position: Option<int>, note: string, proofs: seq<string>) returns (index: Option<nat>)
      requires Valid()
      modifies this`steps, this`stepStatus, this`notes, this`evidence
      ensures Valid()
      ensures index.None? <==> Strip(step) == ""
      ensures index.None? ==>
        steps == old(steps) && stepStatus == old(stepStatus) && notes == old(notes) && evidence == old(evidence)
      ensures index.Some? ==>
        var at := if position.None? then |old(steps)| else Max(0, Min(position.value - 1, |old(steps)|));
        && index.value == at + 1
        && steps == InsertAt(old(steps), at, Strip(step))
        && stepStatus == InsertAt(old(stepStatus), at, NotStarted)
        && notes == InsertAt(old(notes), at, note)
        && evidence == InsertAt(old(evidence), at, proofs)
    {
      var text := Strip(step);
      if text == "" {
        return None;
      }
      var at := |steps|;
      if position.Some? {
        at := Max(0, Min(position.value - 1, |steps|));
      }
      steps := InsertAt(steps, at, text);
      stepStatus := InsertAt(stepStatus, at, NotStarted);
      notes := InsertAt(notes, at, note);
      evidence := InsertAt(evidence, at, proofs);
      SyncLengths();
      index := Some(at + 1);
    }

    method SkipStep(index: int, note: Option<string>, proofs: Option<seq<string>>) returns (ok: bool)
      requires Valid()
      modifies this`stepStatus, this`notes, this`evidence
      ensures Valid()
      ensures ok <==> 1 <= index <= |steps|
      ensures stepStatus == if ok then old(stepStatus)[index - 1 := Skipped] else old(stepStatus)
      ensures ok ==> notes == old(notes)[index - 1 := if note.Some? then note.value else "skipped"]
      ensures ok ==> evidence == (if proofs.Some? then old(evidence)[index - 1 := proofs.value] else old(evidence))
      ensures !ok ==> notes == old(notes) && evidence == old(evidence)
    {
      ok := MarkStep(index, Skipped, if note.Some? then note else Some("skipped"), proofs);
    }

    method MarkFinished()
      requires Valid()
      modifies this`stepStatus
      ensures Valid() && forall i :: 0 <= i < |steps| ==> stepStatus[i] == Completed
    {
      stepStatus := seq(|steps|, _ => Completed);
    }
  }
}
