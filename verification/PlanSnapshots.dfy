/** Plan snapshots inside events, and the snapshot that closes a plan. */
module PlanSnapshots {
  import opened Wrappers
  import opened Sanitization
  import opened PlanState

  const PLAN_EVENT_TYPES :=
    {"plan", "plan_created", "plan_updated", "plan_step_started", "plan_step_completed",
     "plan_step_failed", "plan_step_updated", "plan_completed", "plan_failed", "plan_cancelled"}

  /** The plan carried by an event payload. */
  function PlanOf(payload: Json): (plan: Option<Json>)
    ensures plan.Some? ==> plan.value.Object?
  {
    if !payload.Object? then None
    else
      var plan := Get(payload.fields, "plan");
      if plan.Some? && plan.value.Object? then plan
      else
        var nested := Get(payload.fields, "resultMap");
        var inner := if nested.Some? && nested.value.Object? then Get(nested.value.fields, "plan") else None;
        if inner.Some? && inner.value.Object? then inner
        else if Get(payload.fields, "steps").Some? || Get(payload.fields, "step_status").Some? then Some(payload)
        else None
  }

  /** The field holds an object. */
  predicate HoldsObject(fields: seq<Field>, key: string) {
    match Get(fields, key)
    case Some(Object(_)) => true
    case _ => false
  }

  lemma {:induction false} GivenExactlyWhen(fields: seq<Field>, key: string)
    ensures Get(fields, key).Some? <==> exists i :: 0 <= i < |fields| && fields[i].key == key
    decreases |fields|
  {
    if fields != [] {
      GivenExactlyWhen(fields[1..], key);
      if i :| 0 <= i < |fields| && fields[i].key == key {
        assert i > 0 ==> fields[1..][i - 1].key == key;
      }
    }
  }

  /** A plan put into a payload is found: under its own name first, inside the result next. */
  lemma PlanIsFound(fields: seq<Field>, result: seq<Field>, plan: Json)
    requires plan.Object?
    ensures PlanOf(Object(Put(fields, "plan", plan))) == Some(plan)
    ensures !HoldsObject(fields, "plan") ==>
              PlanOf(Object(Put(fields, "resultMap", Object(Put(result, "plan", plan))))) == Some(plan)
  {
    GetPut(fields, "plan", plan, "plan");
    GetPut(result, "plan", plan, "plan");
    GetPut(fields, "resultMap", Object(Put(result, "plan", plan)), "plan");
    GetPut(fields, "resultMap", Object(Put(result, "plan", plan)), "resultMap");
  }

  predicate NamesSteps(key: string) { key == "steps" || key == "step_status" }

  /** A payload with no plan inside is a plan itself exactly when it names steps or their statuses. */
  lemma PayloadIsPlanExactlyWhen(fields: seq<Field>)
    requires !HoldsObject(fields, "plan")
    requires match Get(fields, "resultMap") case Some(Object(result)) => !HoldsObject(result, "plan") case _ => true
    ensures PlanOf(Object(fields))
            == if exists i :: 0 <= i < |fields| && NamesSteps(fields[i].key) then Some(Object(fields)) else None
  {
    GivenExactlyWhen(fields, "steps");
    GivenExactlyWhen(fields, "step_status");
  }

  // ---- Closing the step statuses ------------------------------------------------------------

  /** The statuses with which a plan can be closed. */
  predicate Terminal(status: StepStatus) { status.Completed? || status.Failed? || status.Cancelled? }

  predicate Touched(status: StepStatus) { status.Running? || status.Failed? || status.Cancelled? }

  predicate AnyTouched(statuses: seq<StepStatus>) {
    exists i :: 0 <= i < |statuses| && Touched(statuses[i])
  }

  /** The first step that is not completed takes the status. */
  function CloseFirst(statuses: seq<StepStatus>, target: StepStatus): (r: seq<StepStatus>)
    ensures |r| == |statuses|
  {
    if statuses == [] then []
    else if statuses[0] != Completed then [target] + statuses[1..]
    else [statuses[0]] + CloseFirst(statuses[1..], target)
  }

  function CloseRunning(statuses: seq<StepStatus>, target: StepStatus): (r: seq<StepStatus>)
    ensures |r| == |statuses|
    ensures forall i :: 0 <= i < |statuses| ==> r[i] == if statuses[i].Running? then target else statuses[i]
  {
    seq(|statuses|, i requires 0 <= i < |statuses| => if statuses[i].Running? then target else statuses[i])
  }

  /** The step statuses of a plan of `count` steps closed with `target`. */
  function Close(count: nat, statuses: seq<StepStatus>, target: StepStatus): (r: seq<StepStatus>)
    requires Terminal(target)
    ensures |r| == count
  {
    var padded := Synced(statuses, count, NotStarted);
    if target.Completed? then seq(count, _ => Completed)
    else if AnyTouched(padded) then CloseRunning(padded, target)
    else CloseFirst(padded, target)
  }

  lemma {:induction false} CloseFirstActs(statuses: seq<StepStatus>, target: StepStatus)
    requires target.Failed? || target.Cancelled?
    ensures var r := CloseFirst(statuses, target);
            && (forall i :: 0 <= i < |statuses| ==> r[i] == statuses[i] || (r[i] == target && statuses[i] != Completed))
            && (AnyTouched(r) || forall i :: 0 <= i < |statuses| ==> r[i] == Completed)
    decreases |statuses|
  {
    if statuses != [] {
      CloseFirstActs(statuses[1..], target);
      var r := CloseFirst(statuses, target);
      if statuses[0] != Completed {
        assert Touched(r[0]);
      } else {
        var rest := CloseFirst(statuses[1..], target);
        if AnyTouched(rest) {
          var i :| 0 <= i < |rest| && Touched(rest[i]);
          assert r[i + 1] == rest[i];
        }
      }
    }
  }

  /**
   A plan closed as failed or cancelled keeps every completed step, runs nothing, shows a failed or
   cancelled step unless all are completed, and changes no step but running ones and one more.
   */
  lemma ClosedPlanIsSettled(count: nat, statuses: seq<StepStatus>, target: StepStatus)
    requires target.Failed? || target.Cancelled?
    ensures var padded, closed := Synced(statuses, count, NotStarted), Close(count, statuses, target);
            && (forall i :: 0 <= i < count ==> !closed[i].Running?)
            && (forall i :: 0 <= i < count && padded[i] == Completed ==> closed[i] == Completed)
            && (forall i :: 0 <= i < count ==> closed[i] == padded[i] || closed[i] == target)
            && (AnyTouched(closed) <==> exists i :: 0 <= i < count && padded[i] != Completed)
  {
    var padded, closed := Synced(statuses, count, NotStarted), Close(count, statuses, target);
    if AnyTouched(padded) {
      var i :| 0 <= i < count && Touched(padded[i]);
      assert Touched(closed[i]) && padded[i] != Completed;
    } else {
      CloseFirstActs(padded, target);
      if i :| 0 <= i < count && Touched(closed[i]) {
        assert padded[i] != Completed;
      }
      if i :| 0 <= i < count && padded[i] != Completed {
        assert !(forall j :: 0 <= j < count ==> closed[j] == Completed) by {
          assert closed[i] == padded[i] || closed[i] == target;
        }
      }
    }
  }

  /** A plan closed as completed has every step completed, whatever it was. */
  lemma CompletedClosesAll(count: nat, statuses: seq<StepStatus>, i: nat)
    requires i < count
    ensures Close(count, statuses, Completed)[i] == Completed
  {
  }

  /** Closing again, with whichever of the two statuses, changes nothing. */
  lemma ClosingIsStable(count: nat, statuses: seq<StepStatus>, first: StepStatus, second: StepStatus)
    requires first.Failed? || first.Cancelled?
    requires second.Failed? || second.Cancelled?
    ensures Close(count, Close(count, statuses, first), second) == Close(count, statuses, first)
  {
    var closed := Close(count, statuses, first);
    ClosedPlanIsSettled(count, statuses, first);
    assert Synced(closed, count, NotStarted) == closed;
    if !AnyTouched(closed) {
      AllCompletedStays(closed, second);
    }
  }

  lemma {:induction false} AllCompletedStays(statuses: seq<StepStatus>, target: StepStatus)
    requires forall i :: 0 <= i < |statuses| ==> statuses[i] == Completed
    ensures CloseFirst(statuses, target) == statuses
    decreases |statuses|
  {
    if statuses != [] {
      AllCompletedStays(statuses[1..], target);
    }
  }

  // ---- The loops of `terminal_plan_payload` --------------------------------------------------

  method PadStatuses(count: nat, statuses: seq<StepStatus>) returns (padded: seq<StepStatus>)
    ensures padded == Synced(statuses, count, NotStarted)
  {
    padded := statuses;
    while |padded| < count
      invariant |statuses| <= |padded| <= Max(count, |statuses|)
      invariant forall i :: 0 <= i < |padded| ==> padded[i] == if i < |statuses| then statuses[i] else NotStarted
    {
      padded := padded + [NotStarted];
    }
    padded := padded[..count];
  }

  lemma {:induction false} CloseFirstAt(statuses: seq<StepStatus>, i: nat, target: StepStatus)
    requires i < |statuses| && statuses[i] != Completed
    requires forall j :: 0 <= j < i ==> statuses[j] == Completed
    ensures CloseFirst(statuses, target) == statuses[i := target]
    decreases i
  {
    if i == 0 {
      assert statuses[0 := target] == [target] + statuses[1..];
    } else {
      CloseFirstAt(statuses[1..], i - 1, target);
      assert statuses[i := target] == [statuses[0]] + statuses[1..][i - 1 := target];
    }
  }

  method CloseFirstStep(statuses: seq<StepStatus>, target: StepStatus) returns (closed: seq<StepStatus>)
    ensures closed == CloseFirst(statuses, target)
  {
    closed := statuses;
    for i := 0 to |statuses|
      invariant closed == statuses
      invariant forall j :: 0 <= j < i ==> statuses[j] == Completed
    {
      if statuses[i] != Completed {
        CloseFirstAt(statuses, i, target);
        closed := closed[i := target];
        return;
      }
    }
    AllCompletedStays(statuses, target);
  }

  method TerminalStepStatus(count: nat, statuses: seq<StepStatus>, target: StepStatus) returns (closed: seq<StepStatus>)
    requires Terminal(target)
    ensures closed == Close(count, statuses, target)
  {
    closed := PadStatuses(count, statuses);
    if target.Completed? {
      closed := seq(count, _ => Completed);
    } else if AnyTouched(closed) {
      closed := CloseRunning(closed, target);
    } else {
      closed := CloseFirstStep(closed, target);
    }
  }

  // ---- The closed plan as a payload ------------------------------------------------------------

  function ToText(status: StepStatus): string {
    match status
    case NotStarted => "not_started"
    case Running => "running"
    case Completed => "completed"
    case Failed => "failed"
    case Cancelled => "cancelled"
    case WaitingInput => "waiting_input"
    case Skipped => "skipped"
    case Other(text) => text
  }

  function FromText(text: string): (status: StepStatus)
    ensures ToText(status) == text
  {
    if text == "not_started" then NotStarted
    else if text == "running" then Running
    else if text == "completed" then Completed
    else if text == "failed" then Failed
    else if text == "cancelled" then Cancelled
    else if text == "waiting_input" then WaitingInput
    else if text == "skipped" then Skipped
    else Other(text)
  }

  /** Each status has its own name in a payload; every other text is kept. */
  lemma StatusIsNamed(text: string)
    ensures FromText(text) == NotStarted <==> text == "not_started"
    ensures FromText(text) == Running <==> text == "running"
    ensures FromText(text) == Completed <==> text == "completed"
    ensures FromText(text) == Failed <==> text == "failed"
    ensures FromText(text) == Cancelled <==> text == "cancelled"
    ensures FromText(text) == WaitingInput <==> text == "waiting_input"
    ensures FromText(text) == Skipped <==> text == "skipped"
  {
  }

  predicate Falsy(value: Json) {
    match value
    case Null => true
    case Bool(b) => !b
    case Number(n) => n == 0
    case Text(text) => text == ""
    case List(items) => items == []
    case Object(fields) => fields == []
  }

  /** `show` turns a value that is not text into text. */
  function ReadStatus(show: Json -> string, item: Json): StepStatus {
    if Falsy(item) then NotStarted else FromText(if item.Text? then item.text else show(item))
  }

  function ItemsOf(plan: seq<Field>, key: string): seq<Json> {
    var value := Get(plan, key);
    if value.Some? && value.value.List? then value.value.items else []
  }

  function StatusesOf(show: Json -> string, plan: seq<Field>): seq<StepStatus> {
    var items := ItemsOf(plan, "step_status");
    seq(|items|, i requires 0 <= i < |items| => ReadStatus(show, items[i]))
  }

  function TextList(statuses: seq<StepStatus>): Json {
    List(seq(|statuses|, i requires 0 <= i < |statuses| => Text(ToText(statuses[i]))))
  }

  function TerminalPlan(show: Json -> string, plan: seq<Field>, target: StepStatus, reason: string): seq<Field>
    requires Terminal(target)
  {
    var stamped :=
      Put(Put(Put(Put(Put(plan, "planStatus", Text(ToText(target))), "status", Text(ToText(target))),
                  "terminalReason", Text(reason)), "eventType", Text("plan_" + ToText(target))),
          "command", Text(ToText(target)));
    var count := |ItemsOf(stamped, "steps")|;
    if target.Completed? || count > 0
    then Put(stamped, "step_status", TextList(Close(count, StatusesOf(show, stamped), target)))
    else stamped
  }

  lemma StampedKeys(plan: seq<Field>, a: Json, b: Json, c: Json, d: Json, e: Json)
    ensures var stamped := Put(Put(Put(Put(Put(plan, "planStatus", a), "status", b), "terminalReason", c),
                                   "eventType", d), "command", e);
            && Get(stamped, "steps") == Get(plan, "steps")
            && Get(stamped, "step_status") == Get(plan, "step_status")
  {
    var one := Put(plan, "planStatus", a);
    var two := Put(one, "status", b);
    var three := Put(two, "terminalReason", c);
    var four := Put(three, "eventType", d);
    PutKeepsSteps(plan, "planStatus", a);
    PutKeepsSteps(one, "status", b);
    PutKeepsSteps(two, "terminalReason", c);
    PutKeepsSteps(three, "eventType", d);
    PutKeepsSteps(four, "command", e);
  }

  lemma PutKeepsSteps(plan: seq<Field>, key: string, value: Json)
    requires key != "steps" && key != "step_status"
    ensures Get(Put(plan, key, value), "steps") == Get(plan, "steps")
    ensures Get(Put(plan, key, value), "step_status") == Get(plan, "step_status")
  {
    GetPut(plan, key, value, "steps");
    GetPut(plan, key, value, "step_status");
  }

  /** The closed payload has one readable status a step: those of `Close`. The steps stay. */
  lemma TerminalPlanStatuses(show: Json -> string, plan: seq<Field>, target: StepStatus, reason: string)
    requires Terminal(target)
    ensures var closed, count := TerminalPlan(show, plan, target, reason), |ItemsOf(plan, "steps")|;
            && ItemsOf(closed, "steps") == ItemsOf(plan, "steps")
            && (count > 0 || target.Completed? ==>
                  Get(closed, "step_status") == Some(TextList(Close(count, StatusesOf(show, plan), target))))
            && (count == 0 && !target.Completed? ==> Get(closed, "step_status") == Get(plan, "step_status"))
  {
    var status := Text(ToText(target));
    StampedKeys(plan, status, status, Text(reason), Text("plan_" + ToText(target)), status);
    var stamped :=
      Put(Put(Put(Put(Put(plan, "planStatus", status), "status", status), "terminalReason", Text(reason)),
              "eventType", Text("plan_" + ToText(target))), "command", status);
    var statuses := TextList(Close(|ItemsOf(stamped, "steps")|, StatusesOf(show, stamped), target));
    GetPut(stamped, "step_status", statuses, "steps");
    GetPut(stamped, "step_status", statuses, "step_status");
  }

  /** Every value that counts as given has a text, as it does in the source. */
  ghost predicate ShowsSomething(show: Json -> string) {
    forall item :: !Falsy(item) && !item.Text? ==> show(item) != ""
  }

  predicate ReadsBack(status: StepStatus) {
    ToText(status) != "" && FromText(ToText(status)) == status
  }

  lemma StatusesReadBack(show: Json -> string, plan: seq<Field>)
    requires ShowsSomething(show)
    ensures forall i :: 0 <= i < |StatusesOf(show, plan)| ==> ReadsBack(StatusesOf(show, plan)[i])
  {
    var items := ItemsOf(plan, "step_status");
    forall i | 0 <= i < |items| ensures ReadsBack(ReadStatus(show, items[i])) {
    }
  }

  lemma ClosedReadsBack(count: nat, statuses: seq<StepStatus>, target: StepStatus)
    requires (target.Failed? || target.Cancelled?) && forall i :: 0 <= i < |statuses| ==> ReadsBack(statuses[i])
    ensures forall i :: 0 <= i < count ==> ReadsBack(Close(count, statuses, target)[i])
  {
    ClosedPlanIsSettled(count, statuses, target);
    assert ReadsBack(NotStarted) && ReadsBack(Failed) && ReadsBack(Cancelled);
    var padded, closed := Synced(statuses, count, NotStarted), Close(count, statuses, target);
    forall i | 0 <= i < count ensures ReadsBack(closed[i]) {
      assert closed[i] == padded[i] || closed[i] == target;
    }
  }

  /** Statuses written out are read back as they were. */
  lemma TextListReadsBack(show: Json -> string, plan: seq<Field>, statuses: seq<StepStatus>)
    requires Get(plan, "step_status") == Some(TextList(statuses))
    requires forall i :: 0 <= i < |statuses| ==> ReadsBack(statuses[i])
    ensures StatusesOf(show, plan) == statuses
  {
    var items := ItemsOf(plan, "step_status");
    forall i | 0 <= i < |statuses| ensures ReadStatus(show, items[i]) == statuses[i] {
      assert items[i] == Text(ToText(statuses[i])) && ReadsBack(statuses[i]);
    }
  }

  /** Closing a closed payload again, with whichever of the two statuses, leaves its step statuses. */
  lemma ClosingPayloadIsStable(show: Json -> string, plan: seq<Field>, first: StepStatus, second: StepStatus,
                               reason: string, again: string)
    requires ShowsSomething(show)
    requires (first.Failed? || first.Cancelled?) && (second.Failed? || second.Cancelled?)
    ensures var closed := TerminalPlan(show, plan, first, reason);
            Get(TerminalPlan(show, closed, second, again), "step_status") == Get(closed, "step_status")
  {
    var closed, count := TerminalPlan(show, plan, first, reason), |ItemsOf(plan, "steps")|;
    TerminalPlanStatuses(show, plan, first, reason);
    TerminalPlanStatuses(show, closed, second, again);
    if count > 0 {
      StatusesReadBack(show, plan);
      ClosedReadsBack(count, StatusesOf(show, plan), first);
      TextListReadsBack(show, closed, Close(count, StatusesOf(show, plan), first));
      ClosingIsStable(count, StatusesOf(show, plan), first, second);
    }
  }

  // ---- The stamps of a closed plan ---------------------------------------------------------------

  predicate Stamped(key: string) {
    key in ["planStatus", "status", "terminalReason", "eventType", "command", "step_status"]
  }

  lemma StampIs(plan: seq<Field>, a: Json, b: Json, c: Json, d: Json, e: Json, key: string)
    ensures Get(Put(Put(Put(Put(Put(plan, "planStatus", a), "status", b), "terminalReason", c),
                        "eventType", d), "command", e), key)
            == if key == "planStatus" then Some(a) else if key == "status" then Some(b)
               else if key == "terminalReason" then Some(c) else if key == "eventType" then Some(d)
               else if key == "command" then Some(e) else Get(plan, key)
  {
    var one := Put(plan, "planStatus", a);
    var two := Put(one, "status", b);
    var three := Put(two, "terminalReason", c);
    var four := Put(three, "eventType", d);
    GetPut(plan, "planStatus", a, key);
    GetPut(one, "status", b, key);
    GetPut(two, "terminalReason", c, key);
    GetPut(three, "eventType", d, key);
    GetPut(four, "command", e, key);
  }

  lemma TerminalField(show: Json -> string, plan: seq<Field>, target: StepStatus, reason: string, key: string)
    requires Terminal(target) && key != "step_status"
    ensures Get(TerminalPlan(show, plan, target, reason), key)
            == if key in ["planStatus", "status", "command"] then Some(Text(ToText(target)))
               else if key == "terminalReason" then Some(Text(reason))
               else if key == "eventType" then Some(Text("plan_" + ToText(target)))
               else Get(plan, key)
  {
    var status, event := Text(ToText(target)), Text("plan_" + ToText(target));
    StampIs(plan, status, status, Text(reason), event, status, key);
    var stamped := Put(Put(Put(Put(Put(plan, "planStatus", status), "status", status), "terminalReason", Text(reason)),
                           "eventType", event), "command", status);
    GetPut(stamped, "step_status", TextList(Close(|ItemsOf(stamped, "steps")|, StatusesOf(show, stamped), target)), key);
  }

  /** The stamps of a closed payload, and every other field as it was. */
  lemma TerminalPlanStamps(show: Json -> string, plan: seq<Field>, target: StepStatus, reason: string, key: string)
    requires target == Completed || target == Failed || target == Cancelled
    ensures var closed := TerminalPlan(show, plan, target, reason);
            var name := if target == Completed then "completed" else if target == Failed then "failed" else "cancelled";
            && Get(closed, "planStatus") == Get(closed, "status") == Get(closed, "command") == Some(Text(name))
            && Get(closed, "eventType") == Some(Text("plan_" + name))
            && Get(closed, "terminalReason") == Some(Text(reason))
            && (!Stamped(key) ==> Get(closed, key) == Get(plan, key))
  {
    TerminalField(show, plan, target, reason, "planStatus");
    TerminalField(show, plan, target, reason, "status");
    TerminalField(show, plan, target, reason, "command");
    TerminalField(show, plan, target, reason, "eventType");
    TerminalField(show, plan, target, reason, "terminalReason");
    if !Stamped(key) {
      TerminalField(show, plan, target, reason, key);
    }
  }
}
