/**
 The latest plan of a task, kept twice: folded from the event log on demand, and cached in the
 task metadata by every event that is added.
 */
module PlanCache {
  import opened Wrappers
  import opened Sanitization
  import opened PlanState
  import opened PlanSnapshots

  const PLAN_KEY := "latestPlan"
  const TYPE_KEY := "latestPlanEventType"
  const TIME_KEY := "latestPlanUpdatedAt"

  /** A stored event: its payload is already sanitized. */
  datatype Event = Event(eventType: string, payload: Json)

  /** An existing task: its metadata object and its events in id order. */
  datatype Task = Task(metadata: seq<Field>, log: seq<Event>)

  /** A plan and the type of the event that carried it. */
  datatype Snapshot = Snapshot(plan: Json, eventType: string)

  // ---- The writers -----------------------------------------------------------------------------

  function CarriedPlan(event: Event): Option<Json> {
    if event.eventType in PLAN_EVENT_TYPES then PlanOf(event.payload) else None
  }

  function CachePlan(redact: string -> string, metadata: seq<Field>, event: Event, at: int): seq<Field> {
    var plan := CarriedPlan(event);
    if plan.None? then metadata
    else
      Sanitize(redact, Object(
        Put(Put(Put(metadata, PLAN_KEY, Sanitize(redact, plan.value)), TYPE_KEY, Text(event.eventType)),
            TIME_KEY, Number(at)))).fields
  }

  function AddEvent(redact: string -> string, task: Task, eventType: string, payload: Json, at: int): Task {
    var event := Event(eventType, Sanitize(redact, payload));
    Task(CachePlan(redact, task.metadata, event, at), task.log + [event])
  }

  /** Any other metadata write: dispatch lease, usage counters, child tasks. */
  function WriteMetadata(redact: string -> string, task: Task, key: string, value: Json): Task {
    task.(metadata := Sanitize(redact, Object(Put(task.metadata, key, value))).fields)
  }

  // ---- The two readings ----------------------------------------------------------------------

  function Cached(metadata: seq<Field>): Option<Snapshot> {
    var plan, eventType := Get(metadata, PLAN_KEY), Get(metadata, TYPE_KEY);
    if plan.Some? && plan.value.Object? && eventType.Some? && eventType.value.Text?
    then Some(Snapshot(plan.value, eventType.value.text)) else None
  }

  /** The fold of a log: its last plan event. */
  function Replay(log: seq<Event>): Option<Snapshot> {
    if log == [] then None
    else
      var last := log[|log| - 1];
      var plan := CarriedPlan(last);
      if plan.Some? then Some(Snapshot(plan.value, last.eventType)) else Replay(log[..|log| - 1])
  }

  /** The events a query with this limit returns: the oldest ones. */
  function Visible(log: seq<Event>, limit: int): seq<Event> {
    var bound := Max(Min(limit, 10000), 1);
    if |log| <= bound then log else log[..bound]
  }

  method LatestPlanPayload(log: seq<Event>, limit: int) returns (latest: Option<Snapshot>)
    ensures latest == Replay(Visible(log, limit))
  {
    var events := Visible(log, limit);
    latest := None;
    for i := 0 to |events|
      invariant latest == Replay(events[..i])
    {
      assert events[..i + 1][..i] == events[..i];
      if events[i].eventType !in PLAN_EVENT_TYPES {
        continue;
      }
      var plan := PlanOf(events[i].payload);
      if plan.None? {
        continue;
      }
      latest := Some(Snapshot(plan.value, events[i].eventType));
    }
    assert events[..|events|] == events;
  }

  // ---- The cache agrees with replay ------------------------------------------------------------

  datatype Write =
    | EventAdded(eventType: string, payload: Json, at: int)
    | MetadataWritten(key: string, value: Json)

  function Apply(redact: string -> string, task: Task, write: Write): Task {
    match write
    case EventAdded(eventType, payload, at) => AddEvent(redact, task, eventType, payload, at)
    case MetadataWritten(key, value) => WriteMetadata(redact, task, key, value)
  }

  function Run(redact: string -> string, task: Task, writes: seq<Write>): Task {
    if writes == [] then task
    else Apply(redact, Run(redact, task, writes[..|writes| - 1]), writes[|writes| - 1])
  }

  /** Redaction is idempotent and leaves the plan event types alone. */
  ghost predicate Redaction(redact: string -> string) {
    Idempotent(redact) && forall eventType :: eventType in PLAN_EVENT_TYPES ==> redact(eventType) == eventType
  }

  /** No other writer touches the cached keys. */
  predicate LeavesCacheKeys(writes: seq<Write>) {
    forall i :: 0 <= i < |writes| && writes[i].MetadataWritten? ==> writes[i].key !in [PLAN_KEY, TYPE_KEY]
  }

  lemma CacheKeysAreStored()
    ensures !Sensitive("plan") && !Sensitive("resultMap")
    ensures !Sensitive(PLAN_KEY) && !Sensitive(TYPE_KEY)
  {
    PayloadKeysAreStored();
    PlanKeyIsStored();
    TypeKeyIsStored();
  }

  lemma PlanKeyIsStored()
    ensures !Sensitive(PLAN_KEY)
  {
    NotSensitive(PLAN_KEY);
  }

  lemma TypeKeyIsStored()
    ensures !Sensitive(TYPE_KEY)
  {
    NotSensitive(TYPE_KEY);
  }

  lemma PayloadKeysAreStored()
    ensures !Sensitive("plan") && !Sensitive("resultMap")
  {
    NotSensitive("plan");
    NotSensitive("resultMap");
  }

  /** What a sanitized payload carries is sanitized already. */
  lemma PlanOfIsSanitized(redact: string -> string, payload: Json)
    requires Redaction(redact)
    ensures var plan := PlanOf(Sanitize(redact, payload));
            plan.Some? ==> Sanitize(redact, plan.value) == plan.value
  {
    var stored := Sanitize(redact, payload);
    SanitizeTwice(redact, payload);
    CacheKeysAreStored();
    if stored.Object? {
      GetSanitized(redact, stored.fields, "plan");
      GetSanitized(redact, stored.fields, "resultMap");
      var nested := Get(stored.fields, "resultMap");
      if nested.Some? && nested.value.Object? {
        GetSanitized(redact, nested.value.fields, "plan");
      }
    }
  }

  lemma CachePlanSets(redact: string -> string, metadata: seq<Field>, event: Event, at: int)
    requires Redaction(redact) && CarriedPlan(event).Some?
    requires Sanitize(redact, CarriedPlan(event).value) == CarriedPlan(event).value
    ensures var after := CachePlan(redact, metadata, event, at);
            && Get(after, PLAN_KEY) == CarriedPlan(event)
            && Get(after, TYPE_KEY) == Some(Text(event.eventType))
  {
    var plan := CarriedPlan(event).value;
    var first := Put(metadata, PLAN_KEY, plan);
    var second := Put(first, TYPE_KEY, Text(event.eventType));
    var third := Put(second, TIME_KEY, Number(at));
    forall key | key in [PLAN_KEY, TYPE_KEY]
      ensures Get(third, key) == if key == TYPE_KEY then Some(Text(event.eventType)) else Some(plan)
    {
      GetPut(metadata, PLAN_KEY, plan, key);
      GetPut(first, TYPE_KEY, Text(event.eventType), key);
      GetPut(second, TIME_KEY, Number(at), key);
    }
    CacheKeysAreStored();
    GetSanitized(redact, third, PLAN_KEY);
    GetSanitized(redact, third, TYPE_KEY);
  }

  /** Both cached entries are stored as they are read back, or both are absent. */
  predicate Mirrors(redact: string -> string, metadata: seq<Field>, latest: Option<Snapshot>) {
    if latest.None? then Get(metadata, PLAN_KEY).None? && Get(metadata, TYPE_KEY).None?
    else
      && Get(metadata, PLAN_KEY) == Some(latest.value.plan) && latest.value.plan.Object?
      && Get(metadata, TYPE_KEY) == Some(Text(latest.value.eventType))
      && Sanitize(redact, latest.value.plan) == latest.value.plan
      && redact(latest.value.eventType) == latest.value.eventType
  }

  lemma OtherWritesKeepTheCache(redact: string -> string, metadata: seq<Field>, latest: Option<Snapshot>,
                                key: string, value: Json)
    requires Mirrors(redact, metadata, latest) && key !in [PLAN_KEY, TYPE_KEY]
    ensures Mirrors(redact, Sanitize(redact, Object(Put(metadata, key, value))).fields, latest)
  {
    CacheKeysAreStored();
    GetPut(metadata, key, value, PLAN_KEY);
    GetPut(metadata, key, value, TYPE_KEY);
    GetSanitized(redact, Put(metadata, key, value), PLAN_KEY);
    GetSanitized(redact, Put(metadata, key, value), TYPE_KEY);
  }

  lemma {:induction false} CacheMirrorsLog(redact: string -> string, task: Task, writes: seq<Write>)
    requires Redaction(redact) && LeavesCacheKeys(writes)
    requires task.log == [] && Mirrors(redact, task.metadata, None)
    ensures var after := Run(redact, task, writes);
            Mirrors(redact, after.metadata, Replay(after.log))
    decreases |writes|
  {
    if writes != [] {
      var write, before := writes[|writes| - 1], Run(redact, task, writes[..|writes| - 1]);
      CacheMirrorsLog(redact, task, writes[..|writes| - 1]);
      match write {
        case EventAdded(eventType, payload, at) =>
          var event := Event(eventType, Sanitize(redact, payload));
          assert (before.log + [event])[..|before.log|] == before.log;
          if CarriedPlan(event).Some? {
            PlanOfIsSanitized(redact, payload);
            CachePlanSets(redact, before.metadata, event, at);
          }
        case MetadataWritten(key, value) =>
          OtherWritesKeepTheCache(redact, before.metadata, Replay(before.log), key, value);
      }
    }
  }

  /**
   After any run of writes on a task created without a plan, the cached plan and event type are the
   fold of the whole log; the bounded replay is that same cache as long as the query sees the log.
   */
  lemma CacheAgreesWithReplay(redact: string -> string, task: Task, writes: seq<Write>, limit: int)
    requires Redaction(redact) && LeavesCacheKeys(writes)
    requires task.log == [] && Mirrors(redact, task.metadata, None)
    ensures var after := Run(redact, task, writes);
            && Cached(after.metadata) == Replay(after.log)
            && (|after.log| <= Max(Min(limit, 10000), 1) ==>
                  Cached(after.metadata) == Replay(Visible(after.log, limit)))
  {
    CacheMirrorsLog(redact, task, writes);
  }

  // ---- Closing the plan of a finished task -----------------------------------------------------

  function TerminalEventType(target: StepStatus): string { "plan_" + ToText(target) }

  /** The environment of a sync: redaction, text of odd values, query limit. */
  datatype Sync = Sync(redact: string -> string, show: Json -> string, limit: int, reason: string, at: int)

  /** `sync_plan_terminal_status`. */
  function Synchronise(env: Sync, task: Task, target: StepStatus): Task
    requires Terminal(target)
  {
    var latest := Replay(Visible(task.log, env.limit));
    if latest.None? || latest.value.eventType == TerminalEventType(target) || !latest.value.plan.Object? then task
    else AddEvent(env.redact, task, TerminalEventType(target),
                  ClosingPayload(env, latest.value.plan.fields, target), env.at)
  }

  function ClosingPayload(env: Sync, plan: seq<Field>, target: StepStatus): Json
    requires Terminal(target)
  {
    Object([Field("messageType", Text(TerminalEventType(target))),
            Field("plan", Object(TerminalPlan(env.show, plan, target, env.reason))),
            Field("reason", Text(env.reason))])
  }

  /** The closing event says what it is, why, and with which plan. */
  lemma ClosingPayloadSays(env: Sync, plan: seq<Field>, target: StepStatus)
    requires Terminal(target)
    ensures var said := ClosingPayload(env, plan, target).fields;
            && Get(said, "messageType") == Some(Text(TerminalEventType(target)))
            && Get(said, "reason") == Some(Text(env.reason))
            && Get(said, "plan") == Some(Object(TerminalPlan(env.show, plan, target, env.reason)))
  {
    var said := ClosingPayload(env, plan, target).fields;
    ThreeFields(said[0], said[1], said[2]);
    assert said == [said[0], said[1], said[2]];
  }

  lemma ThreeFields(a: Field, b: Field, c: Field)
    requires a.key != b.key && b.key != c.key && c.key != a.key
    ensures Get([a, b, c], a.key) == Some(a.value)
    ensures Get([a, b, c], b.key) == Some(b.value)
    ensures Get([a, b, c], c.key) == Some(c.value)
  {
    assert [a, b, c][1..] == [b, c] && [b, c][1..] == [c];
    assert Get([b, c], c.key) == Get([c], c.key);
  }

  lemma ClosingTypesArePlanTypes(target: StepStatus)
    requires Terminal(target)
    ensures TerminalEventType(target) in PLAN_EVENT_TYPES
  {
    assert TerminalEventType(Completed) == "plan_completed";
    assert TerminalEventType(Failed) == "plan_failed";
    assert TerminalEventType(Cancelled) == "plan_cancelled";
  }

  lemma ClosingPayloadCarriesPlan(env: Sync, plan: seq<Field>, target: StepStatus)
    requires Terminal(target)
    ensures PlanOf(Sanitize(env.redact, ClosingPayload(env, plan, target))).Some?
  {
    CacheKeysAreStored();
    var payload := ClosingPayload(env, plan, target);
    var closed := Object(TerminalPlan(env.show, plan, target, env.reason));
    PlanIsSecond(Field("messageType", Text(TerminalEventType(target))), closed, Field("reason", Text(env.reason)));
    GetSanitized(env.redact, payload.fields, "plan");
    assert Sanitize(env.redact, closed).Object?;
  }

  lemma PlanIsSecond(first: Field, plan: Json, third: Field)
    requires first.key == "messageType"
    ensures Get([first, Field("plan", plan), third], "plan") == Some(plan)
  {
    assert [first, Field("plan", plan), third][1..] == [Field("plan", plan), third];
  }

  /**
   Closing a plan twice with one status adds one event at most, exactly while the log query still
   sees the end of the log: at the limit the closing event is invisible and each call adds another.
   */
  lemma SynchroniseTwice(env: Sync, task: Task, target: StepStatus)
    requires Terminal(target)
    ensures var once := Synchronise(env, task, target);
            Synchronise(env, once, target) == once
            <==> once == task || |task.log| < Max(Min(env.limit, 10000), 1)
  {
    var once := Synchronise(env, task, target);
    if once != task {
      var latest := Replay(Visible(task.log, env.limit));
      ClosingTypesArePlanTypes(target);
      ClosingPayloadCarriesPlan(env, latest.value.plan.fields, target);
      assert |once.log| == |task.log| + 1;
      if |task.log| < Max(Min(env.limit, 10000), 1) {
        assert Visible(once.log, env.limit) == once.log;
        assert once.log[..|once.log| - 1] == task.log;
      } else {
        assert Visible(once.log, env.limit) == Visible(task.log, env.limit);
        assert |Synchronise(env, once, target).log| == |once.log| + 1;
      }
    }
  }

  /** The task record the store updates. */
  class TaskRecord {
    var metadata: seq<Field>
    var log: seq<Event>

    function Value(): Task
      reads this
    {
      Task(metadata, log)
    }

    method RecordEvent(redact: string -> string, eventType: string, payload: Json, at: int)
      modifies this
      ensures Value() == AddEvent(redact, old(Value()), eventType, payload, at)
    {
      var sanitized := Sanitize(redact, payload);
      if eventType in PLAN_EVENT_TYPES {
        var plan := PlanOf(sanitized);
        if plan.Some? {
          metadata := Put(metadata, PLAN_KEY, Sanitize(redact, plan.value));
          metadata := Put(metadata, TYPE_KEY, Text(eventType));
          metadata := Put(metadata, TIME_KEY, Number(at));
          metadata := Sanitize(redact, Object(metadata)).fields;
        }
      }
      log := log + [Event(eventType, sanitized)];
    }

    method SyncPlanTerminalStatus(env: Sync, target: StepStatus)
      requires Terminal(target)
      modifies this
      ensures Value() == Synchronise(env, old(Value()), target)
    {
      var latest := LatestPlanPayload(log, env.limit);
      if latest.None? || latest.value.eventType == TerminalEventType(target) || !latest.value.plan.Object? {
        return;
      }
      RecordEvent(env.redact, TerminalEventType(target), ClosingPayload(env, latest.value.plan.fields, target), env.at);
    }
  }
}
