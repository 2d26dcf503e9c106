/**
 The background-dispatch lease on one task row, and every writer of that row.

 Several worker processes share the row. A recovery sweep reads it (the snapshot) and
 commits later with a compare-and-swap on `updatedAt`; every other writer is a plain
 read-modify-write transaction. Updates are keyed by task id, so rows meet only in the session
 of a sweep that holds several: `Reread` is what one row sees of a race lost on another.
 RecoverySessions models those sessions and shows that each row of the table runs this protocol.
 */
module BackgroundDispatch {
  import opened Wrappers

  datatype TaskStatus =
    | Queued | Running | WaitingInput | WaitingApproval | Completed | Failed | Cancelled
  {
    predicate Final() { Completed? || Failed? || Cancelled? }

    /** The statuses the recovery queries select. */
    predicate Recoverable() { Queued? || Running? }

    function Name(): string {
      match this
      case Queued => "queued"
      case Running => "running"
      case WaitingInput => "waiting_input"
      case WaitingApproval => "waiting_approval"
      case Completed => "completed"
      case Failed => "failed"
      case Cancelled => "cancelled"
    }
  }

  /** The `backgroundDispatch` entry of the metadata; a missing text is "" and a missing number 0. */
  datatype Dispatch = Dispatch(
    status: string, owner: string, leasedAt: int, leaseExpiresAt: int, attempt: int,
    previousStatus: string, error: string)

  const NO_DISPATCH := Dispatch("", "", 0, 0, 0, "", "")
  const DEFAULT_LEASE_MS := 5 * 60 * 1000

  /** A task row. `rest` stands for the metadata keys other than `backgroundDispatch`. */
  datatype Row = Row(
    status: TaskStatus, dispatch: Option<Dispatch>, rest: string, updatedAt: int,
    startedAt: Option<int>, endedAt: Option<int>, error: Option<string>)

  function Entry(row: Row): Dispatch {
    if row.dispatch.Some? then row.dispatch.value else NO_DISPATCH
  }

  function Attempt(row: Row): int { Entry(row).attempt }

  /** The lease is held at time `at`. */
  predicate Live(row: Row, at: int) {
    Entry(row).status in ["running", "recovering"] && Entry(row).leaseExpiresAt > at
  }

  function LeaseEnd(at: int, leaseMs: int): int { at + Max(leaseMs, 1) }

  // ---- Plain read-modify-write transactions -------------------------------------------

  function UpdateStatus(row: Row, at: int, status: TaskStatus, error: Option<string>): Row {
    row.(status := status,
         updatedAt := at,
         startedAt := if status.Running? && row.startedAt.None? then Some(at) else row.startedAt,
         endedAt := if status.Final() then Some(at) else row.endedAt,
         error := if error.Some? then error else row.error)
  }

  function StartTask(row: Row, at: int): Row {
    if row.status.Final() then row
    else row.(status := Running,
              updatedAt := at,
              startedAt := if row.startedAt.None? then Some(at) else row.startedAt)
  }

  function DispatchStarted(row: Row, at: int, owner: string, leaseMs: int): Row {
    row.(dispatch := Some(Dispatch("running", owner, at, LeaseEnd(at, leaseMs), Attempt(row) + 1, "", "")),
         updatedAt := at)
  }

  function DispatchFinished(row: Row, at: int, status: string, error: string): Row {
    var entry := Entry(row);
    row.(dispatch := Some(entry.(status := if status != "" then status else row.status.Name(),
                                 leaseExpiresAt := 0,
                                 error := if error != "" then error else entry.error)),
         updatedAt := at)
  }

  predicate RenewAllowed(row: Row, owner: string) {
    && !row.status.Final()
    && row.dispatch.Some?
    && row.dispatch.value.owner == owner
    && row.dispatch.value.status in ["running", "recovering"]
  }

  function Renew(row: Row, at: int, owner: string, leaseMs: int): Row {
    if RenewAllowed(row, owner) then
      row.(dispatch := Some(row.dispatch.value.(status := "running", leaseExpiresAt := LeaseEnd(at, leaseMs))),
           updatedAt := at)
    else row
  }

  // ---- Recovery: a snapshot now, a compare-and-swap later ------------------------------

  datatype Sweep =
    | Claim(leaseMs: int, limit: Option<int>)
    | Fail(maxAttempts: int, reason: string)

  /**
   What a sweep holds between reading the row and trying to commit it. The recovery query lists the
   row by the status it has then; `snapshot` is what the session holds of it, and a lost race rolls
   the session back, so that it reads the rows it still holds again, without the query.
   */
  datatype Read = Read(sweep: Sweep, owner: string, timestamp: int, snapshot: Row, listed: TaskStatus)

  function Looked(sweep: Sweep, owner: string, timestamp: int, row: Row): Read {
    Read(sweep, owner, timestamp, row, row.status)
  }

  function AttemptLimit(maxAttempts: int): int { Max(maxAttempts, 1) }

  /** The sweep does not skip this candidate. */
  predicate Selected(read: Read) {
    && read.listed.Recoverable()
    && !Live(read.snapshot, read.timestamp)
    && match read.sweep
       case Claim(_, limit) => limit.None? || Attempt(read.snapshot) < AttemptLimit(limit.value)
       case Fail(maxAttempts, _) =>
         read.snapshot.dispatch.Some? && Attempt(read.snapshot) >= AttemptLimit(maxAttempts)
  }

  function CommitTime(read: Read): int { Max(read.timestamp, read.snapshot.updatedAt + 1) }

  /** The columns the update statement assigns, computed from the snapshot; the others stay. */
  function Assigned(row: Row, read: Read): Row {
    var at := CommitTime(read);
    var snapshot := read.snapshot;
    match read.sweep
    case Claim(leaseMs, _) =>
      row.(status := Queued,
           dispatch := Some(Dispatch("recovering", read.owner, at, LeaseEnd(at, leaseMs),
                                     Attempt(snapshot) + 1, snapshot.status.Name(), "")),
           rest := snapshot.rest,
           updatedAt := at,
           endedAt := None)
    case Fail(_, reason) =>
      var entry := Entry(snapshot);
      row.(status := Failed,
           dispatch := Some(entry.(
             status := "failed", owner := read.owner, leaseExpiresAt := 0, error := reason,
             previousStatus := if entry.previousStatus != "" then entry.previousStatus
                               else snapshot.status.Name())),
           rest := snapshot.rest,
           updatedAt := at,
           endedAt := Some(at),
           error := Some(reason))
  }

  predicate Commits(row: Row, read: Read) {
    Selected(read) && row.updatedAt == read.snapshot.updatedAt
  }

  // ---- The protocol as a state machine --------------------------------------------------

  /** `pending`: what each sweep, numbered as it opens, holds of this row. */
  datatype State = State(row: Row, pending: map<nat, Read>)

  datatype Step =
    | StatusWrite(at: int, status: TaskStatus, error: Option<string>)
    | TaskStart(at: int)
    | Started(at: int, owner: string, leaseMs: int)
    | Finished(at: int, finalStatus: string, reason: string)
    | Renewed(at: int, owner: string, leaseMs: int)
    | MetadataWrite(at: int, rest: string)
    | Look(session: nat, sweep: Sweep, owner: string, timestamp: int)
    | Reread(session: nat)
    | TryCommit(session: nat)
  {
    predicate Plain() { !Look? && !Reread? && !TryCommit? }
  }

  function Write(row: Row, step: Step): Row
    requires step.Plain()
  {
    match step
    case StatusWrite(at, status, error) => UpdateStatus(row, at, status, error)
    case TaskStart(at) => StartTask(row, at)
    case Started(at, owner, leaseMs) => DispatchStarted(row, at, owner, leaseMs)
    case Finished(at, status, error) => DispatchFinished(row, at, status, error)
    case Renewed(at, owner, leaseMs) => Renew(row, at, owner, leaseMs)
    case MetadataWrite(at, rest) => row.(rest := rest, updatedAt := at)
  }

  predicate CommitsAt(s: State, step: Step) {
    step.TryCommit? && step.session in s.pending && Commits(s.row, s.pending[step.session])
  }

  function Next(s: State, step: Step): State {
    if step.Plain() then s.(row := Write(s.row, step))
    else if step.Look? then
      s.(pending := s.pending[step.session := Looked(step.sweep, step.owner, step.timestamp, s.row)])
    else if step.Reread? then
      if step.session in s.pending
      then s.(pending := s.pending[step.session := s.pending[step.session].(snapshot := s.row)])
      else s
    else if CommitsAt(s, step) then s.(row := Assigned(s.row, s.pending[step.session]))
    else s
  }

  function Exec(s: State, steps: seq<Step>): State {
    if steps == [] then s else Next(Exec(s, steps[..|steps| - 1]), steps[|steps| - 1])
  }

  /** The clock assumption: a plain write that changes the row also raises `updatedAt`. */
  predicate Raises(row: Row, step: Step) {
    step.Plain() ==> Write(row, step) == row || Write(row, step).updatedAt > row.updatedAt
  }

  predicate Rising(s: State, steps: seq<Step>) {
    steps == [] ||
    (Rising(s, steps[..|steps| - 1]) && Raises(Exec(s, steps[..|steps| - 1]).row, steps[|steps| - 1]))
  }

  /** A pending snapshot is never newer than the row, and equals it when the versions agree. */
  predicate SnapshotsConsistent(s: State) {
    forall k :: k in s.pending ==>
      && s.pending[k].snapshot.updatedAt <= s.row.updatedAt
      && (s.pending[k].snapshot.updatedAt == s.row.updatedAt ==> s.pending[k].snapshot == s.row)
  }

  lemma {:induction false} SnapshotsStayConsistent(s: State, steps: seq<Step>)
    requires SnapshotsConsistent(s) && Rising(s, steps)
    ensures SnapshotsConsistent(Exec(s, steps))
    decreases |steps|
  {
    if steps != [] {
      SnapshotsStayConsistent(s, steps[..|steps| - 1]);
    }
  }

  /**
   Lease safety of every commit in every run that respects the clock assumption: a claim or
   fail that commits does so on the very row it last read, so no lease later than its timestamp
   is broken and no concurrent metadata write is lost.
   */
  lemma CommitIsSafe(s: State, steps: seq<Step>, session: nat)
    requires s.pending == map[] && Rising(s, steps)
    requires CommitsAt(Exec(s, steps), TryCommit(session))
    ensures var before := Exec(s, steps);
            var after := Next(before, TryCommit(session));
            var read := before.pending[session];
            && before.row == read.snapshot
            && !Live(before.row, read.timestamp)
            && after.row.rest == before.row.rest
            && after.row.updatedAt > before.row.updatedAt
            && after.row.startedAt == before.row.startedAt
            && after.row.dispatch.Some?
            && after.row.dispatch.value.owner == read.owner
            && Attempt(after.row) == Attempt(before.row) + (if read.sweep.Claim? then 1 else 0)
  {
    SnapshotsStayConsistent(s, steps);
  }

  predicate OnlyWrites(steps: seq<Step>) {
    forall i :: 0 <= i < |steps| ==> steps[i].Plain()
  }

  /** The time of the last write that changed the row. */
  function LastChange(s: State, steps: seq<Step>): Option<int> {
    if steps == [] then None
    else
      var before, last := Exec(s, steps[..|steps| - 1]), steps[|steps| - 1];
      if last.Plain() && Write(before.row, last) != before.row then Some(last.at)
      else LastChange(s, steps[..|steps| - 1])
  }

  lemma {:induction false} LastChangeIsVersion(s: State, steps: seq<Step>)
    requires OnlyWrites(steps)
    ensures var last := LastChange(s, steps);
            if last.None? then Exec(s, steps).row == s.row else Exec(s, steps).row.updatedAt == last.value
    decreases |steps|
  {
    if steps != [] {
      LastChangeIsVersion(s, steps[..|steps| - 1]);
    }
  }

  /**
   What the clock assumption buys: whatever plain writes follow a selected snapshot, its commit still
   passes exactly when none of them changed the row or the last one that did has the snapshot's time.
   */
  lemma WritesHideSnapshotExactlyWhen(read: Read, s: State, steps: seq<Step>)
    requires Selected(read) && s.row == read.snapshot && OnlyWrites(steps)
    ensures Commits(Exec(s, steps).row, read) <==> LastChange(s, steps) in {None, Some(read.snapshot.updatedAt)}
  {
    LastChangeIsVersion(s, steps);
  }

  /** Without it lease safety fails: a dispatch started in the tick of the last write is claimed away. */
  lemma SameTickStartIsClaimedAway(s: State, steps: seq<Step>)
    requires s == State(Row(Queued, None, "", 100, None, None, None), map[])
    requires steps == [Look(0, Claim(1000, Some(3)), "b", 100), Started(100, "a", 60000)]
    ensures !Rising(s, steps)
    ensures var before := Exec(s, steps);
            && CommitsAt(before, TryCommit(0))
            && Live(before.row, before.pending[0].timestamp)
            && Next(before, TryCommit(0)).row.dispatch.value.owner == "b"
  {
    assert steps[..1] == [Look(0, Claim(1000, Some(3)), "b", 100)];
    assert steps[..1][..0] == [];
    assert Exec(s, steps[..1]) == Next(s, steps[0]);
  }

  /** The status texts, read back. */
  function StatusNamed(name: string): Option<TaskStatus> {
    if name == "queued" then Some(Queued) else if name == "running" then Some(Running)
    else if name == "waiting_input" then Some(WaitingInput) else if name == "waiting_approval" then Some(WaitingApproval)
    else if name == "completed" then Some(Completed) else if name == "failed" then Some(Failed)
    else if name == "cancelled" then Some(Cancelled) else None
  }

  lemma NameIsReadBack(status: TaskStatus)
    ensures StatusNamed(status.Name()) == Some(status)
  {
  }

  // ---- What a write leaves ------------------------------------------------------------------

  /** A start or an allowed renewal gives its owner a lease that lasts exactly as long as asked for. */
  lemma LeaseLastsExactly(row: Row, step: Step, now: int)
    requires step.Started? ||
             (step.Renewed? && row.dispatch.Some? && Entry(row).owner == step.owner
              && row.status !in {Completed, Failed, Cancelled}
              && (Entry(row).status == "running" || Entry(row).status == "recovering"))
    ensures var after := Write(row, step);
            && (Live(after, now) <==> now < step.at + (if step.leaseMs < 1 then 1 else step.leaseMs))
            && Entry(after).owner == step.owner && Entry(after).status == "running" && after.updatedAt == step.at
            && Entry(after).leasedAt == (if step.Started? then step.at else Entry(row).leasedAt)
            && Entry(after).previousStatus == (if step.Started? then "" else Entry(row).previousStatus)
            && after.status == row.status && after.rest == row.rest
  {
  }

  /**
   A sweep takes a listed task whose lease is over, to claim it while attempts are left, or to fail it
   when none is. A limit below one counts as one.
   */
  lemma SelectsExactlyWhen(read: Read)
    ensures var entry := Entry(read.snapshot);
            Selected(read) <==>
            && (read.listed == Queued || read.listed == Running)
            && (entry.status == "running" || entry.status == "recovering" ==> entry.leaseExpiresAt <= read.timestamp)
            && match read.sweep
               case Claim(_, None) => true
               case Claim(_, Some(limit)) => entry.attempt < limit || entry.attempt < 1
               case Fail(limit, _) => read.snapshot.dispatch.Some? && entry.attempt >= limit && entry.attempt >= 1
  {
  }

  /** A claim requeues the task under a lease of its own; a fail ends it for the stated reason and frees it. */
  lemma CommitLeaves(s: State, session: nat, now: int)
    requires CommitsAt(s, TryCommit(session))
    ensures var read, after := s.pending[session], Next(s, TryCommit(session)).row;
            && after.updatedAt == (if s.row.updatedAt < read.timestamp then read.timestamp else s.row.updatedAt + 1)
            && match read.sweep
            case Claim(leaseMs, _) =>
              && after.status == Queued && after.endedAt == None
              && (Live(after, now) <==> now < after.updatedAt + (if leaseMs < 1 then 1 else leaseMs))
              && StatusNamed(Entry(after).previousStatus) == Some(read.snapshot.status)
              && Entry(after).status == "recovering" && Entry(after).error == ""
              && Entry(after).leasedAt == after.updatedAt
            case Fail(_, reason) =>
              && after.status == Failed && after.endedAt == Some(after.updatedAt)
              && !Live(after, now) && after.error == Some(reason) == Some(Entry(after).error)
              && Entry(after).status == "failed" && Entry(after).leaseExpiresAt == 0
              && Entry(after).leasedAt == Entry(read.snapshot).leasedAt
              && (if Entry(read.snapshot).previousStatus != ""
                  then Entry(after).previousStatus == Entry(read.snapshot).previousStatus
                  else StatusNamed(Entry(after).previousStatus) == Some(read.snapshot.status))
  {
  }

  /** In every run a task that started once keeps that first time, and one in a final status has an end time. */
  lemma {:induction false} TaskTimesAreKept(s: State, steps: seq<Step>)
    requires s.row.status.Final() ==> s.row.endedAt.Some?
    ensures s.row.startedAt.Some? ==> Exec(s, steps).row.startedAt == s.row.startedAt
    ensures Exec(s, steps).row.status.Final() ==> Exec(s, steps).row.endedAt.Some?
    decreases |steps|
  {
    if steps != [] {
      TaskTimesAreKept(s, steps[..|steps| - 1]);
    }
  }

  // ---- Every column holds what its last writer wrote --------------------------------------------

  /** The status after plain writes: the last one set, or running from the last start of a task not final then. */
  function LastStatus(first: Row, steps: seq<Step>): TaskStatus {
    if steps == [] then first.status
    else
      var before, last := LastStatus(first, steps[..|steps| - 1]), steps[|steps| - 1];
      if last.StatusWrite? then last.status
      else if last.TaskStart? && before != Completed && before != Failed && before != Cancelled then Running
      else before
  }

  /** The step starts the task, or sets it running. */
  predicate Begins(first: Row, prefix: seq<Step>, step: Step) {
    || (step.StatusWrite? && step.status == Running)
    || (step.TaskStart? && LastStatus(first, prefix) !in {Completed, Failed, Cancelled})
  }

  /** The time the task first began. */
  function FirstStart(first: Row, steps: seq<Step>): Option<int> {
    if steps == [] then first.startedAt
    else
      var before, last := FirstStart(first, steps[..|steps| - 1]), steps[|steps| - 1];
      if before == None && Begins(first, steps[..|steps| - 1], last) then Some(last.at) else before
  }

  /** The time of the last update to a final status. */
  function LastEnd(first: Row, steps: seq<Step>): Option<int> {
    if steps == [] then first.endedAt
    else
      var last := steps[|steps| - 1];
      if last.StatusWrite? && last.status in {Completed, Failed, Cancelled} then Some(last.at)
      else LastEnd(first, steps[..|steps| - 1])
  }

  /** The last error a status update came with. */
  function LastError(first: Row, steps: seq<Step>): Option<string> {
    if steps == [] then first.error
    else
      var last := steps[|steps| - 1];
      if last.StatusWrite? && last.error.Some? then last.error else LastError(first, steps[..|steps| - 1])
  }

  /** The last text of the other metadata. */
  function LastText(first: Row, steps: seq<Step>): string {
    if steps == [] then first.rest
    else
      var last := steps[|steps| - 1];
      if last.MetadataWrite? then last.rest else LastText(first, steps[..|steps| - 1])
  }

  /** The error of the dispatch: cleared by a start, set by a finish that has one. */
  function LastDispatchError(first: Row, steps: seq<Step>): string {
    if steps == [] then Entry(first).error
    else
      var last := steps[|steps| - 1];
      if last.Started? then ""
      else if last.Finished? && last.reason != "" then last.reason
      else LastDispatchError(first, steps[..|steps| - 1])
  }

  /** A finish leaves the dispatch under the status it names, or that of the task, with the last error there was. */
  lemma FinishIsRecorded(s: State, steps: seq<Step>, at: int, finalStatus: string, reason: string)
    requires OnlyWrites(steps)
    ensures var entry := Entry(Exec(s, steps + [Finished(at, finalStatus, reason)]).row);
            && (finalStatus != "" ==> entry.status == finalStatus)
            && (finalStatus == "" ==> StatusNamed(entry.status) == Some(LastStatus(s.row, steps)))
            && entry.error == (if reason != "" then reason else LastDispatchError(s.row, steps))
            && entry.owner == Entry(Exec(s, steps).row).owner && entry.leaseExpiresAt == 0
  {
    assert (steps + [Finished(at, finalStatus, reason)])[..|steps|] == steps;
    ColumnsHoldLastWrites(s, steps);
    NameIsReadBack(LastStatus(s.row, steps));
  }

  /** Over any run of plain writes each column of the row holds what the last write to it put there. */
  lemma {:induction false} ColumnsHoldLastWrites(s: State, steps: seq<Step>)
    requires OnlyWrites(steps)
    ensures var row := Exec(s, steps).row;
            && row.status == LastStatus(s.row, steps) && row.error == LastError(s.row, steps)
            && row.rest == LastText(s.row, steps)
            && row.startedAt == FirstStart(s.row, steps) && row.endedAt == LastEnd(s.row, steps)
            && Entry(row).error == LastDispatchError(s.row, steps)
    decreases |steps|
  {
    if steps != [] {
      ColumnsHoldLastWrites(s, steps[..|steps| - 1]);
    }
  }

  /** A start that finds the task not final makes it run, at that time, and gives it a start time. */
  lemma StartedTaskRuns(s: State, steps: seq<Step>, at: int)
    requires OnlyWrites(steps) && LastStatus(s.row, steps) !in {Completed, Failed, Cancelled}
    ensures var row := Exec(s, steps + [TaskStart(at)]).row;
            && row.status == Running && row.updatedAt == at
            && row.startedAt == Some(if FirstStart(s.row, steps).Some? then FirstStart(s.row, steps).value else at)
  {
    assert (steps + [TaskStart(at)])[..|steps|] == steps;
    ColumnsHoldLastWrites(s, steps);
  }

  predicate NotActive(row: Row) {
    row.dispatch.None? || (row.dispatch.value.status != "running" && row.dispatch.value.status != "recovering")
  }

  /** A dispatch that is over stays over: no renewal, by whomever, revives it before the next start or claim. */
  lemma {:induction false} FinishedDispatchIsNotRenewed(s: State, steps: seq<Step>)
    requires NotActive(s.row)
    requires OnlyWrites(steps) && forall i :: 0 <= i < |steps| ==> !steps[i].Started? && !steps[i].Finished?
    ensures NotActive(Exec(s, steps).row) && Exec(s, steps).row.dispatch == s.row.dispatch
    decreases |steps|
  {
    if steps != [] {
      FinishedDispatchIsNotRenewed(s, steps[..|steps| - 1]);
    }
  }

  // ---- Conservation of attempts -----------------------------------------------------------

  predicate ClaimsAt(s: State, step: Step) {
    CommitsAt(s, step) && s.pending[step.session].sweep.Claim?
  }

  /** Successful claims in the run. */
  function Claims(s: State, steps: seq<Step>): nat {
    if steps == [] then 0
    else Claims(s, steps[..|steps| - 1])
         + (if ClaimsAt(Exec(s, steps[..|steps| - 1]), steps[|steps| - 1]) then 1 else 0)
  }

  /** Dispatch starts in the run. */
  function Starts(steps: seq<Step>): nat {
    if steps == [] then 0
    else Starts(steps[..|steps| - 1]) + (if steps[|steps| - 1].Started? then 1 else 0)
  }

  /** No increment is ever lost: claims and starts are the only source of attempts, one each. */
  lemma {:induction false} AttemptsAreConserved(s: State, steps: seq<Step>)
    requires s.pending == map[] && Rising(s, steps)
    ensures Attempt(Exec(s, steps).row) == Attempt(s.row) + Claims(s, steps) + Starts(steps)
    decreases |steps|
  {
    if steps != [] {
      AttemptsAreConserved(s, steps[..|steps| - 1]);
      SnapshotsStayConsistent(s, steps[..|steps| - 1]);
    }
  }

  // ---- Compare-and-swap exclusivity, with no clock assumption -----------------------------

  predicate SweepsOnly(steps: seq<Step>) {
    forall i :: 0 <= i < |steps| ==> !steps[i].Plain()
  }

  /** The row version a commit consumed and the one it produced. */
  datatype Version = Version(consumed: int, produced: int)

  function Commit(s: State, step: Step): seq<Version> {
    if CommitsAt(s, step)
    then [Version(s.pending[step.session].snapshot.updatedAt, Next(s, step).row.updatedAt)]
    else []
  }

  function Versions(s: State, steps: seq<Step>): seq<Version> {
    if steps == [] then []
    else Versions(s, steps[..|steps| - 1]) + Commit(Exec(s, steps[..|steps| - 1]), steps[|steps| - 1])
  }

  lemma {:induction false} SweepsOnlyRise(s: State, steps: seq<Step>)
    requires SweepsOnly(steps)
    ensures Rising(s, steps)
    decreases |steps|
  {
    if steps != [] {
      SweepsOnlyRise(s, steps[..|steps| - 1]);
    }
  }

  /** The committed versions form one chain from the first row version to the last. */
  predicate Chain(first: int, versions: seq<Version>, last: int) {
    && (versions == [] ==> first == last)
    && (versions != [] ==> versions[0].consumed == first && versions[|versions| - 1].produced == last)
    && (forall k :: 0 <= k < |versions| ==> versions[k].consumed < versions[k].produced)
    && (forall k :: 0 < k < |versions| ==> versions[k - 1].produced == versions[k].consumed)
  }

  lemma ChainGrows(first: int, versions: seq<Version>, last: int, next: Version)
    requires Chain(first, versions, last) && last == next.consumed < next.produced
    ensures Chain(first, versions + [next], next.produced)
  {
    var all := versions + [next];
    forall k | 0 < k < |all| ensures all[k - 1].produced == all[k].consumed {
      assert k < |versions| ==> all[k - 1] == versions[k - 1] && all[k] == versions[k];
    }
  }

  /** Between sweeps alone, whatever the clocks read, every version is consumed in turn and once. */
  lemma {:induction false} CommitsFormOneChain(s: State, steps: seq<Step>)
    requires SweepsOnly(steps)
    ensures Chain(s.row.updatedAt, Versions(s, steps), Exec(s, steps).row.updatedAt)
    decreases |steps|
  {
    if steps != [] {
      var prefix, step := steps[..|steps| - 1], steps[|steps| - 1];
      CommitsFormOneChain(s, prefix);
      var before := Exec(s, prefix);
      if CommitsAt(before, step) {
        ChainGrows(s.row.updatedAt, Versions(s, prefix), before.row.updatedAt, Commit(before, step)[0]);
      } else {
        assert Versions(s, prefix) + [] == Versions(s, prefix);
      }
    }
  }

  /** Between sweeps alone no claim is lost either: the attempts grow by exactly the claims committed. */
  lemma SweepsLoseNoClaim(s: State, steps: seq<Step>)
    requires s.pending == map[] && SweepsOnly(steps)
    ensures Attempt(Exec(s, steps).row) == Attempt(s.row) + Claims(s, steps)
  {
    SweepsOnlyRise(s, steps);
    AttemptsAreConserved(s, steps);
    NoStarts(steps);
  }

  lemma {:induction false} NoStarts(steps: seq<Step>)
    requires SweepsOnly(steps)
    ensures Starts(steps) == 0
    decreases |steps|
  {
    if steps != [] {
      NoStarts(steps[..|steps| - 1]);
    }
  }

  /** A chain never consumes one version twice, and its versions strictly increase. */
  lemma {:induction false} ChainConsumesOnce(first: int, versions: seq<Version>, last: int, j: nat, k: nat)
    requires Chain(first, versions, last) && j < k < |versions|
    ensures versions[j].produced <= versions[k].consumed
    ensures versions[j].consumed < versions[k].consumed && versions[j].produced < versions[k].produced
    decreases k
  {
    if j + 1 < k {
      ChainConsumesOnce(first, versions, last, j, k - 1);
    }
  }

  // ---- Ownership ------------------------------------------------------------------------------

  predicate NotBy(owner: string, s: State, steps: seq<Step>) {
    && (forall k :: k in s.pending ==> s.pending[k].owner != owner)
    && (forall i :: 0 <= i < |steps| ==>
          (steps[i].Started? || steps[i].Look?) ==> steps[i].owner != owner)
  }

  /**
   Once another owner holds the dispatch, this owner never renews it again, whatever the clocks,
   until it starts or sweeps the task itself.
   */
  lemma {:induction false} LostDispatchIsNeverRenewed(s: State, steps: seq<Step>, owner: string, at: int, leaseMs: int)
    requires s.row.dispatch.Some? && s.row.dispatch.value.owner != owner
    requires NotBy(owner, s, steps)
    ensures var row := Exec(s, steps).row;
            && row.dispatch.Some? && row.dispatch.value.owner != owner
            && Renew(row, at, owner, leaseMs) == row
    ensures forall k :: k in Exec(s, steps).pending ==> Exec(s, steps).pending[k].owner != owner
    decreases |steps|
  {
    if steps != [] {
      LostDispatchIsNeverRenewed(s, steps[..|steps| - 1], owner, at, leaseMs);
    }
  }

  /** No start or finish, no renewal that ends by `now`, no sweep by a clock that is ahead of it. */
  predicate Harmless(step: Step, now: int) {
    && !step.Started? && !step.Finished?
    && (step.Renewed? ==> now < LeaseEnd(step.at, step.leaseMs))
    && (step.Look? ==> step.timestamp <= now)
  }

  /** The sweeps already open were opened by clocks that are not ahead. */
  predicate OpenedBy(s: State, now: int) {
    forall k :: k in s.pending ==> s.pending[k].timestamp <= now
  }

  predicate SameLease(before: Row, after: Row, now: int) {
    Live(after, now) && Entry(after).owner == Entry(before).owner && Attempt(after) == Attempt(before)
  }

  lemma HarmlessStep(s: State, step: Step, now: int)
    requires SnapshotsConsistent(s) && OpenedBy(s, now) && Live(s.row, now) && Harmless(step, now)
    ensures SameLease(s.row, Next(s, step).row, now) && OpenedBy(Next(s, step), now)
  {
  }

  /** A live lease, its holder and its attempt survive any run of harmless steps. */
  lemma {:induction false} LiveLeaseSurvives(s: State, steps: seq<Step>, now: int)
    requires SnapshotsConsistent(s) && OpenedBy(s, now) && Rising(s, steps) && Live(s.row, now)
    requires forall i :: 0 <= i < |steps| ==> Harmless(steps[i], now)
    ensures SameLease(s.row, Exec(s, steps).row, now) && OpenedBy(Exec(s, steps), now)
    decreases |steps|
  {
    if steps != [] {
      var prefix := steps[..|steps| - 1];
      LiveLeaseSurvives(s, prefix, now);
      SnapshotsStayConsistent(s, prefix);
      HarmlessStep(Exec(s, prefix), steps[|steps| - 1], now);
    }
  }

  /** The steps that give out a lease, to whom, and until when. */
  predicate Grants(s: State, step: Step) {
    step.Started? || (step.Renewed? && RenewAllowed(s.row, step.owner)) || ClaimsAt(s, step)
  }

  function Grantee(s: State, step: Step): string
    requires Grants(s, step)
  {
    if step.TryCommit? then s.pending[step.session].owner else step.owner
  }

  function GrantEnd(s: State, step: Step): int
    requires Grants(s, step)
  {
    if step.TryCommit?
    then LeaseEnd(CommitTime(s.pending[step.session]), s.pending[step.session].sweep.leaseMs)
    else LeaseEnd(step.at, step.leaseMs)
  }

  /**
   From a grant on: after any run of harmless steps, the lease is live for the one it was given to at
   every time before its end.
   */
  lemma GrantedLeaseIsHeld(s: State, grant: Step, steps: seq<Step>, now: int)
    requires SnapshotsConsistent(s) && OpenedBy(s, now) && Raises(s.row, grant) && Grants(s, grant)
    requires now < GrantEnd(s, grant) && Rising(Next(s, grant), steps)
    requires forall i :: 0 <= i < |steps| ==> Harmless(steps[i], now)
    ensures var row := Exec(Next(s, grant), steps).row;
            Live(row, now) && Entry(row).owner == Grantee(s, grant)
  {
    if grant.TryCommit? {
      CommitLeaves(s, grant.session, now);
    } else {
      LeaseLastsExactly(s.row, grant, now);
    }
    LiveLeaseSurvives(Next(s, grant), steps, now);
  }

  // ---- Final tasks ---------------------------------------------------------------------------

  /** No session reads its rows again. */
  predicate NeverReread(steps: seq<Step>) {
    forall i :: 0 <= i < |steps| ==> !steps[i].Reread?
  }

  predicate AsListed(s: State) {
    forall k :: k in s.pending ==> s.pending[k].snapshot.status == s.pending[k].listed
  }

  predicate SameEnd(before: Row, after: Row) {
    after.status == before.status && after.endedAt == before.endedAt && after.error == before.error
  }

  /** Without rereads, a final status, its end time and its error change by a status update only. */
  lemma {:induction false} FinalIsAbsorbing(s: State, steps: seq<Step>)
    requires SnapshotsConsistent(s) && AsListed(s) && s.row.status.Final()
    requires Rising(s, steps) && NeverReread(steps) && forall i :: 0 <= i < |steps| ==> !steps[i].StatusWrite?
    ensures SameEnd(s.row, Exec(s, steps).row) && AsListed(Exec(s, steps))
    decreases |steps|
  {
    if steps != [] {
      var prefix := steps[..|steps| - 1];
      FinalIsAbsorbing(s, prefix);
      SnapshotsStayConsistent(s, prefix);
    }
  }

  /** A task that recovery failed stays failed, with its reason, under every worker that never updates its status. */
  lemma FailedTaskStaysFailed(s: State, session: nat, steps: seq<Step>)
    requires SnapshotsConsistent(s) && AsListed(s)
    requires CommitsAt(s, TryCommit(session)) && s.pending[session].sweep.Fail?
    requires Rising(Next(s, TryCommit(session)), steps) && NeverReread(steps)
    requires forall i :: 0 <= i < |steps| ==> !steps[i].StatusWrite?
    ensures var row := Exec(Next(s, TryCommit(session)), steps).row;
            && row.status == Failed && row.error == Some(s.pending[session].sweep.reason)
            && row.endedAt == Some(CommitTime(s.pending[session]))
  {
    CommitLeaves(s, session, 0);
    FinalIsAbsorbing(Next(s, TryCommit(session)), steps);
  }

  /**
   A finish is not owner-checked: a worker that lost the task still ends the new holder's lease,
   and from then on any sweep with attempts left selects the task.
   */
  lemma StaleFinishReopensTheTask(row: Row, at: int, status: string, error: string, read: Read)
    requires row.status.Recoverable()
    requires read == Looked(read.sweep, read.owner, read.timestamp, DispatchFinished(row, at, status, error))
    requires read.sweep.Claim? && read.timestamp >= 0
    ensures Selected(read) <==> read.sweep.limit.None? || Attempt(row) < AttemptLimit(read.sweep.limit.value)
    ensures Entry(read.snapshot).owner == Entry(row).owner
  {
    assert Entry(read.snapshot).leaseExpiresAt == 0;
  }

  // ---- Bounded recovery -----------------------------------------------------------------------

  /** Every claim sweep, pending or to come, uses one attempt limit. */
  predicate UsesLimit(s: State, steps: seq<Step>, limit: int) {
    && (forall k :: k in s.pending ==> SweepLimit(s.pending[k].sweep, limit))
    && (forall i :: 0 <= i < |steps| ==> steps[i].Look? ==> SweepLimit(steps[i].sweep, limit))
  }

  predicate SweepLimit(sweep: Sweep, limit: int) {
    sweep.Claim? ==> sweep.limit.Some? && AttemptLimit(sweep.limit.value) == limit
  }

  lemma {:induction false} LimitKept(s: State, steps: seq<Step>, limit: int)
    requires UsesLimit(s, steps, limit)
    ensures UsesLimit(Exec(s, steps), [], limit)
    decreases |steps|
  {
    if steps != [] {
      LimitKept(s, steps[..|steps| - 1], limit);
    }
  }

  /** A task is claimed at most as often as attempts were left, however many workers interleave. */
  lemma {:induction false} ClaimsAreBounded(s: State, steps: seq<Step>, limit: int)
    requires s.pending == map[] && Rising(s, steps) && UsesLimit(s, steps, limit)
    ensures Claims(s, steps) <= Max(limit - Attempt(s.row), 0)
    decreases |steps|
  {
    if steps != [] {
      var prefix := steps[..|steps| - 1];
      ClaimsAreBounded(s, prefix, limit);
      AttemptsAreConserved(s, prefix);
      SnapshotsStayConsistent(s, prefix);
      LimitKept(s, prefix, limit);
    }
  }

  /** An exhausted task is never claimed again. */
  lemma ExhaustedIsNeverClaimed(s: State, steps: seq<Step>, limit: int)
    requires s.pending == map[] && Rising(s, steps) && UsesLimit(s, steps, limit)
    requires Attempt(s.row) >= limit
    ensures Claims(s, steps) == 0
  {
    ClaimsAreBounded(s, steps, limit);
  }

  /** Dispatch starts since the last successful claim. */
  function Unclaimed(s: State, steps: seq<Step>): nat {
    if steps == [] then 0
    else if ClaimsAt(Exec(s, steps[..|steps| - 1]), steps[|steps| - 1]) then 0
    else Unclaimed(s, steps[..|steps| - 1]) + (if steps[|steps| - 1].Started? then 1 else 0)
  }

  /** Attempts overshoot the limit only by starts that no claim preceded: with one start a claim, by one. */
  lemma {:induction false} AttemptOvershoot(s: State, steps: seq<Step>, limit: int)
    requires s.pending == map[] && Rising(s, steps) && UsesLimit(s, steps, limit)
    ensures Attempt(Exec(s, steps).row) <= Max(Attempt(s.row), limit) + Unclaimed(s, steps)
    decreases |steps|
  {
    if steps != [] {
      var prefix := steps[..|steps| - 1];
      AttemptOvershoot(s, prefix, limit);
      SnapshotsStayConsistent(s, prefix);
      LimitKept(s, prefix, limit);
    }
  }

  /** Every claim finds each earlier claim already restarted, as one recovering process does it. */
  predicate RestartsEachClaim(s: State, steps: seq<Step>) {
    steps == [] ||
    (var prefix := steps[..|steps| - 1];
     && RestartsEachClaim(s, prefix)
     && (ClaimsAt(Exec(s, prefix), steps[|steps| - 1]) ==> Starts(prefix) >= Claims(s, prefix)))
  }

  /**
   A restart costs an attempt of its own, so recovery that restarts what it claims uses two
   attempts a time: from one dispatch and a limit of three there is exactly one recovery.
   */
  lemma {:induction false} RestartedClaimsCostTwo(s: State, steps: seq<Step>, limit: int)
    requires s.pending == map[] && Rising(s, steps) && UsesLimit(s, steps, limit) && RestartsEachClaim(s, steps)
    ensures 2 * Claims(s, steps) <= Max(limit - Attempt(s.row) + 1, 0)
    decreases |steps|
  {
    if steps != [] {
      var prefix := steps[..|steps| - 1];
      RestartedClaimsCostTwo(s, prefix, limit);
      AttemptsAreConserved(s, prefix);
      SnapshotsStayConsistent(s, prefix);
      LimitKept(s, prefix, limit);
    }
  }
}
