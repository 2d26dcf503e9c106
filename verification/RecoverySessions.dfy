/**
 Recovery sweeps over the whole task table, with the database session each one works in.

 A sweep lists its candidates by one query and then tries them. A compare-and-swap that changes no
 row has lost a race: the session is rolled back, which expires every row it holds, and each one is
 read again when the sweep comes to it, this time without the status filter of the query.
 */
module RecoverySessions {
  import opened Wrappers
  import opened BackgroundDispatch

  /** A candidate a session holds: its status when listed, and the row as read, unless expired. */
  datatype Candidate = Candidate(listed: TaskStatus, loaded: Option<Row>)

  datatype Session = Session(sweep: Sweep, owner: string, timestamp: int, held: map<nat, Candidate>, lost: bool)

  /** The task rows by id, and the sweeps in the order they opened. */
  datatype Table = Table(rows: map<nat, Row>, sessions: seq<Session>)

  /** What the workers do; `found` is what a query returned. */
  datatype Event =
    | Written(id: nat, step: Step)
    | Opened(sweep: Sweep, owner: string, timestamp: int, found: set<nat>)
    | Accessed(session: nat, id: nat)
    | Tried(session: nat, id: nat)

  predicate Holds(t: Table, session: nat, id: nat) {
    session < |t.sessions| && id in t.sessions[session].held && id in t.rows
  }

  predicate Loaded(t: Table, session: nat, id: nat) {
    Holds(t, session, id) && t.sessions[session].held[id].loaded.Some?
  }

  predicate Expired(t: Table, session: nat, id: nat) {
    Holds(t, session, id) && t.sessions[session].held[id].loaded.None?
  }

  function ReadOf(t: Table, session: nat, id: nat): Read
    requires Loaded(t, session, id)
  {
    var x := t.sessions[session];
    Read(x.sweep, x.owner, x.timestamp, x.held[id].loaded.value, x.held[id].listed)
  }

  /** How a try ends: no row at hand, candidate skipped, race lost, or committed. */
  datatype Trial = NotLoaded | Skipped | Lost | Won

  function TrialOf(t: Table, session: nat, id: nat): Trial {
    if !Loaded(t, session, id) then NotLoaded
    else if !Selected(ReadOf(t, session, id)) then Skipped
    else if Commits(t.rows[id], ReadOf(t, session, id)) then Won
    else Lost
  }

  function Listed(rows: map<nat, Row>, found: set<nat>): map<nat, Candidate> {
    map id | id in found && id in rows && rows[id].status.Recoverable() :: Candidate(rows[id].status, Some(rows[id]))
  }

  function Done(x: Session, id: nat): Session { x.(held := x.held - {id}) }

  function RolledBack(x: Session, id: nat): Session {
    x.(held := map other | other in x.held && other != id :: x.held[other].(loaded := None), lost := true)
  }

  function Reloaded(x: Session, id: nat, row: Row): Session
    requires id in x.held
  {
    x.(held := x.held[id := x.held[id].(loaded := Some(row))])
  }

  function After(t: Table, event: Event): Table {
    match event
    case Written(id, step) =>
      if id in t.rows && step.Plain() then t.(rows := t.rows[id := Write(t.rows[id], step)]) else t
    case Opened(sweep, owner, timestamp, found) =>
      t.(sessions := t.sessions + [Session(sweep, owner, timestamp, Listed(t.rows, found), false)])
    case Accessed(k, id) =>
      if Expired(t, k, id) then t.(sessions := t.sessions[k := Reloaded(t.sessions[k], id, t.rows[id])]) else t
    case Tried(k, id) =>
      match TrialOf(t, k, id)
      case NotLoaded => t
      case Skipped => t.(sessions := t.sessions[k := Done(t.sessions[k], id)])
      case Lost => t.(sessions := t.sessions[k := RolledBack(t.sessions[k], id)])
      case Won =>
        t.(rows := t.rows[id := Assigned(t.rows[id], ReadOf(t, k, id))],
           sessions := t.sessions[k := Done(t.sessions[k], id)])
  }

  function Run(t: Table, events: seq<Event>): Table {
    if events == [] then t else After(Run(t, events[..|events| - 1]), events[|events| - 1])
  }

  /** The clock assumption, row by row. */
  predicate Rises(t: Table, events: seq<Event>) {
    events == [] ||
    (var before, last := Run(t, events[..|events| - 1]), events[|events| - 1];
     && Rises(t, events[..|events| - 1])
     && (last.Written? && last.id in before.rows ==> Raises(before.rows[last.id], last.step)))
  }

  // ---- The table is one lease protocol a row -------------------------------------------------

  /** What an event is on one row. */
  function StepsOn(t: Table, event: Event, id: nat): (steps: seq<Step>)
    ensures |steps| <= 1
  {
    match event
    case Written(written, step) => if written == id && step.Plain() then [step] else []
    case Opened(sweep, owner, timestamp, found) =>
      if id in Listed(t.rows, found) then [Look(|t.sessions|, sweep, owner, timestamp)] else []
    case Accessed(k, accessed) => if accessed == id && Expired(t, k, id) then [Reread(k)] else []
    case Tried(k, tried) => if tried == id && TrialOf(t, k, id) == Won then [TryCommit(k)] else []
  }

  function StepsOf(t: Table, events: seq<Event>, id: nat): seq<Step> {
    if events == [] then []
    else StepsOf(t, events[..|events| - 1], id)
         + StepsOn(Run(t, events[..|events| - 1]), events[|events| - 1], id)
  }

  predicate SameCandidate(x: Session, id: nat, read: Read)
    requires id in x.held
  {
    && read == Read(x.sweep, x.owner, x.timestamp, read.snapshot, x.held[id].listed)
    && (x.held[id].loaded.Some? ==> read.snapshot == x.held[id].loaded.value)
  }

  /** The row has the same value in both, and the sweeps hold the same of it. */
  predicate Agrees(t: Table, id: nat, s: State) {
    && id in t.rows && s.row == t.rows[id]
    && (forall k :: 0 <= k < |t.sessions| && id in t.sessions[k].held ==>
          k in s.pending && SameCandidate(t.sessions[k], id, s.pending[k]))
  }

  /** At most one more step. */
  function After1(s: State, more: seq<Step>): State
    requires |more| <= 1
  {
    if more == [] then s else Next(s, more[0])
  }

  lemma ExecMore(s: State, steps: seq<Step>, more: seq<Step>)
    requires |more| <= 1
    ensures Exec(s, steps + more) == After1(Exec(s, steps), more)
    ensures Rising(s, steps + more) <==> Rising(s, steps) && (more != [] ==> Raises(Exec(s, steps).row, more[0]))
    ensures Claims(s, steps + more)
            == Claims(s, steps) + (if more != [] && ClaimsAt(Exec(s, steps), more[0]) then 1 else 0)
  {
    if more == [] {
      assert steps + more == steps;
    } else {
      assert (steps + more)[..|steps|] == steps && (steps + more)[|steps|] == more[0];
    }
  }

  lemma OpenedAgrees(t: Table, event: Event, id: nat, s: State)
    requires Agrees(t, id, s) && event.Opened?
    ensures Agrees(After(t, event), id, After1(s, StepsOn(t, event, id)))
  {
  }

  lemma AccessedAgrees(t: Table, event: Event, id: nat, s: State)
    requires Agrees(t, id, s) && event.Accessed?
    ensures Agrees(After(t, event), id, After1(s, StepsOn(t, event, id)))
  {
  }

  lemma TriedAgrees(t: Table, event: Event, id: nat, s: State)
    requires Agrees(t, id, s) && event.Tried?
    ensures Agrees(After(t, event), id, After1(s, StepsOn(t, event, id)))
  {
  }

  lemma EventAgrees(t: Table, event: Event, id: nat, s: State)
    requires Agrees(t, id, s)
    ensures Agrees(After(t, event), id, After1(s, StepsOn(t, event, id)))
  {
    match event
    case Written(_, _) =>
    case Opened(_, _, _, _) => OpenedAgrees(t, event, id, s);
    case Accessed(_, _) => AccessedAgrees(t, event, id, s);
    case Tried(_, _) => TriedAgrees(t, event, id, s);
  }

  lemma EventRaises(t: Table, event: Event, id: nat, s: State)
    requires Agrees(t, id, s) && (event.Written? && event.id in t.rows ==> Raises(t.rows[event.id], event.step))
    ensures var steps := StepsOn(t, event, id); steps != [] ==> Raises(s.row, steps[0])
  {
  }

  function RowState(t: Table, id: nat): State
    requires id in t.rows
  {
    State(t.rows[id], map[])
  }

  /** Every run of the table is, on each row, a run of the lease protocol with the same clock assumption. */
  lemma {:induction false} TableRefinesProtocol(t: Table, events: seq<Event>, id: nat)
    requires t.sessions == [] && id in t.rows
    ensures Agrees(Run(t, events), id, Exec(RowState(t, id), StepsOf(t, events, id)))
    ensures Rises(t, events) ==> Rising(RowState(t, id), StepsOf(t, events, id))
    decreases |events|
  {
    if events != [] {
      var prefix, last := events[..|events| - 1], events[|events| - 1];
      TableRefinesProtocol(t, prefix, id);
      var before, steps, s := Run(t, prefix), StepsOf(t, prefix, id), RowState(t, id);
      EventAgrees(before, last, id, Exec(s, steps));
      ExecMore(s, steps, StepsOn(before, last, id));
      if Rises(t, events) {
        EventRaises(before, last, id, Exec(s, steps));
      }
    }
  }

  /** What the refinement says of one try: it commits in the table exactly when it does on the row. */
  lemma TryCommitsOnTheRow(t: Table, events: seq<Event>, session: nat, id: nat)
    requires t.sessions == [] && Rises(t, events) && id in t.rows
    requires TrialOf(Run(t, events), session, id) == Won
    ensures var s, steps := RowState(t, id), StepsOf(t, events, id);
            && Rising(s, steps) && CommitsAt(Exec(s, steps), TryCommit(session))
            && Exec(s, steps).row == Run(t, events).rows[id]
            && Exec(s, steps).pending[session] == ReadOf(Run(t, events), session, id)
  {
    TableRefinesProtocol(t, events, id);
  }

  lemma {:induction false} RowsStay(t: Table, events: seq<Event>)
    ensures Run(t, events).rows.Keys == t.rows.Keys
    decreases |events|
  {
    if events != [] {
      RowsStay(t, events[..|events| - 1]);
    }
  }

  /** Lease safety over the table: a commit replaces the very row its session last read, with no live lease. */
  lemma WinIsSafe(t: Table, events: seq<Event>, session: nat, id: nat)
    requires t.sessions == [] && Rises(t, events)
    requires TrialOf(Run(t, events), session, id) == Won
    ensures var before, after := Run(t, events), After(Run(t, events), Tried(session, id));
            var read := ReadOf(before, session, id);
            && before.rows[id] == read.snapshot && !Live(before.rows[id], read.timestamp)
            && after.rows == before.rows[id := Assigned(before.rows[id], read)]
            && after.rows[id].rest == before.rows[id].rest
            && after.rows[id].updatedAt > before.rows[id].updatedAt
            && Entry(after.rows[id]).owner == read.owner
            && Attempt(after.rows[id]) == Attempt(before.rows[id]) + (if read.sweep.Claim? then 1 else 0)
  {
    RowsStay(t, events);
    TryCommitsOnTheRow(t, events, session, id);
    CommitIsSafe(RowState(t, id), StepsOf(t, events, id), session);
  }

  // ---- Races ------------------------------------------------------------------------------------

  /** Candidates were listed queued or running, and only a session that lost a race holds other readings. */
  ghost predicate AsListed(x: Session) {
    forall id :: id in x.held ==>
      && x.held[id].listed.Recoverable()
      && (!x.lost ==> x.held[id].loaded.Some? && x.held[id].loaded.value.status == x.held[id].listed)
  }

  ghost predicate AllAsListed(t: Table) {
    forall k :: 0 <= k < |t.sessions| ==> AsListed(t.sessions[k])
  }

  lemma EventKeepsListing(t: Table, event: Event)
    requires AllAsListed(t)
    ensures AllAsListed(After(t, event))
  {
    if event.Tried? && event.session < |t.sessions| {
      var x := t.sessions[event.session];
      assert AsListed(x);
      assert AsListed(Done(x, event.id)) && AsListed(RolledBack(x, event.id));
    } else if event.Accessed? && Expired(t, event.session, event.id) {
      var x := t.sessions[event.session];
      assert AsListed(x) && x.lost;
      assert AsListed(Reloaded(x, event.id, t.rows[event.id]));
    }
  }

  lemma {:induction false} RunKeepsListing(t: Table, events: seq<Event>)
    requires t.sessions == []
    ensures AllAsListed(Run(t, events))
    decreases |events|
  {
    if events != [] {
      RunKeepsListing(t, events[..|events| - 1]);
      EventKeepsListing(Run(t, events[..|events| - 1]), events[|events| - 1]);
    }
  }

  /**
   As long as a sweep has lost no race, in every interleaving, its commits take queued and running
   tasks only.
   */
  lemma FinalStatusIsKept(t: Table, events: seq<Event>, session: nat, id: nat)
    requires t.sessions == [] && Rises(t, events)
    requires TrialOf(Run(t, events), session, id) == Won && !Run(t, events).sessions[session].lost
    ensures Run(t, events).rows[id].status.Recoverable() && !Run(t, events).rows[id].status.Final()
  {
    RunKeepsListing(t, events);
    WinIsSafe(t, events, session, id);
    assert AsListed(Run(t, events).sessions[session]);
  }

  /** A lost race: this candidate is dropped, and every other one of the session has to be read again. */
  lemma LostRaceExpires(t: Table, session: nat, id: nat, other: nat)
    requires TrialOf(t, session, id) == Lost && Holds(t, session, other) && other != id
    ensures var after := After(t, Tried(session, id));
            && after.rows == t.rows && after.sessions[session].lost
            && !Holds(after, session, id) && Expired(after, session, other)
  {
  }

  /** The lease and the attempts of the row let this sweep take it. */
  predicate Takeable(x: Session, row: Row) {
    && !Live(row, x.timestamp)
    && match x.sweep
       case Claim(_, limit) => limit.None? || Attempt(row) < AttemptLimit(limit.value)
       case Fail(maxAttempts, _) => row.dispatch.Some? && Attempt(row) >= AttemptLimit(maxAttempts)
  }

  /** An opening sweep holds exactly the queued and running rows its query found, as they are. */
  lemma SweepHoldsExactly(t: Table, sweep: Sweep, owner: string, timestamp: int, found: set<nat>, id: nat)
    ensures var after := After(t, Opened(sweep, owner, timestamp, found));
            && after.rows == t.rows
            && |after.sessions| == |t.sessions| + 1 && after.sessions[..|t.sessions|] == t.sessions
            && var x := after.sessions[|t.sessions|];
               && x.sweep == sweep && x.owner == owner && x.timestamp == timestamp && !x.lost
               && (id in x.held <==>
                     id in found && id in t.rows && (t.rows[id].status == Queued || t.rows[id].status == Running))
               && (id in x.held ==> x.held[id] == Candidate(t.rows[id].status, Some(t.rows[id])))
  {
  }

  /** The reading at hand lets the sweep take the candidate. */
  predicate Wanted(t: Table, session: nat, id: nat)
    requires Loaded(t, session, id)
  {
    var x := t.sessions[session];
    (x.held[id].listed == Queued || x.held[id].listed == Running) && Takeable(x, x.held[id].loaded.value)
  }

  /**
   A try settles its candidate and no other: it commits a wanted one whose version still stands, loses
   the race exactly for a wanted one whose version has moved, and skips the rest without a rollback.
   */
  lemma TrySettlesOne(t: Table, session: nat, id: nat)
    requires Loaded(t, session, id)
    ensures var x, after := t.sessions[session], After(t, Tried(session, id));
            var moved := t.rows[id].updatedAt != x.held[id].loaded.value.updatedAt;
            && (TrialOf(t, session, id) == Won <==> Wanted(t, session, id) && !moved)
            && (TrialOf(t, session, id) != Won ==> after.rows == t.rows)
            && (forall other :: other in t.rows && other != id ==>
                  other in after.rows && after.rows[other] == t.rows[other])
            && |after.sessions| == |t.sessions|
            && var y := after.sessions[session];
               && y.held.Keys == x.held.Keys - {id}
               && (y.lost <==> x.lost || (Wanted(t, session, id) && moved))
               && (!(Wanted(t, session, id) && moved) ==>
                     forall other :: other in y.held ==> y.held[other] == x.held[other])
               && (forall k :: 0 <= k < |t.sessions| && k != session ==> after.sessions[k] == t.sessions[k])
  {
  }

  /**
   From then on the status plays no part: in every run, a candidate that is read again commits
   exactly when its lease is over and its attempts allow it.
   */
  lemma RereadWinsExactlyWhen(t: Table, events: seq<Event>, session: nat, id: nat)
    requires t.sessions == [] && Expired(Run(t, events), session, id)
    ensures var before := Run(t, events);
            var x, row := before.sessions[session], before.rows[id];
            && x.lost
            && (TrialOf(After(before, Accessed(session, id)), session, id) == Won <==> Takeable(x, row))
  {
    RunKeepsListing(t, events);
    assert AsListed(Run(t, events).sessions[session]);
  }

  /** What a lost race opens up: each other candidate of the session commits next exactly when it is takeable. */
  lemma LostRaceDecides(t: Table, events: seq<Event>, session: nat, id: nat, other: nat)
    requires t.sessions == [] && TrialOf(Run(t, events), session, id) == Lost
    requires Holds(Run(t, events), session, other) && other != id
    ensures var before := Run(t, events);
            var after := Run(t, events + [Tried(session, id), Accessed(session, other)]);
            && after.rows == before.rows
            && (TrialOf(after, session, other) == Won <==> Takeable(before.sessions[session], before.rows[other]))
  {
    var lost := events + [Tried(session, id)];
    LostRaceExpires(Run(t, events), session, id, other);
    RunAppend(t, events, [Tried(session, id)]);
    RunOne(Run(t, events), Tried(session, id));
    RereadWinsExactlyWhen(t, lost, session, other);
    RunAppend(t, lost, [Accessed(session, other)]);
    RunOne(Run(t, lost), Accessed(session, other));
    assert lost + [Accessed(session, other)] == events + [Tried(session, id), Accessed(session, other)];
  }

  lemma RunOne(t: Table, event: Event)
    ensures Run(t, [event]) == After(t, event)
  {
    assert [event][..0] == [];
    assert Run(t, []) == t;
  }

  const RUNNING := Row(Running, Some(Dispatch("running", "a", 0, 150, 1, "", "")), "", 100, Some(0), None, None)
  const RENEWED := Row(Running, Some(Dispatch("running", "a", 0, 1201, 1, "", "")), "", 201, Some(0), None, None)
  const COMPLETED := Row(Completed, Some(Dispatch("running", "a", 0, 150, 1, "", "")), "", 202, Some(0), Some(202), None)

  const FIRST_THREE := [Opened(Claim(1000, Some(3)), "b", 200, {1, 2}), Written(1, Renewed(201, "a", 1000)),
                        Written(2, StatusWrite(202, Completed, None))]
  const RACE := [Tried(0, 1), Accessed(0, 2), Tried(0, 2)]

  function BothHeld(): Session {
    Session(Claim(1000, Some(3)), "b", 200,
            map[1 := Candidate(Running, Some(RUNNING)), 2 := Candidate(Running, Some(RUNNING))], false)
  }

  lemma SweepOpens(t: Table)
    requires t == Table(map[1 := RUNNING, 2 := RUNNING], [])
    ensures After(t, FIRST_THREE[0]) == Table(t.rows, [BothHeld()])
  {
    assert Listed(t.rows, {1, 2}) == BothHeld().held;
  }

  lemma WorkersWrite(t: Table)
    requires t == Table(map[1 := RUNNING, 2 := RUNNING], [BothHeld()])
    ensures After(After(t, FIRST_THREE[1]), FIRST_THREE[2]) == Table(map[1 := RENEWED, 2 := COMPLETED], [BothHeld()])
    ensures After(t, FIRST_THREE[1]).rows == map[1 := RENEWED, 2 := RUNNING]
  {
  }

  lemma WritesRaise()
    ensures Raises(RUNNING, Renewed(201, "a", 1000)) && Raises(RUNNING, StatusWrite(202, Completed, None))
  {
  }

  lemma WorkersMoveOn(t: Table)
    requires t == Table(map[1 := RUNNING, 2 := RUNNING], [])
    ensures Rises(t, FIRST_THREE)
    ensures Run(t, FIRST_THREE) == Table(map[1 := RENEWED, 2 := COMPLETED], [BothHeld()])
  {
    SweepOpens(t);
    WorkersWrite(After(t, FIRST_THREE[0]));
    WritesRaise();
    RunNext(t, FIRST_THREE, 0);
    RunNext(t, FIRST_THREE, 1);
    RunNext(t, FIRST_THREE, 2);
    assert FIRST_THREE[..3] == FIRST_THREE;
  }

  lemma SweepLosesFirst(t: Table)
    requires t == Table(map[1 := RENEWED, 2 := COMPLETED], [BothHeld()])
    ensures TrialOf(t, 0, 1) == Lost
    ensures After(t, Tried(0, 1))
            == t.(sessions := [Session(Claim(1000, Some(3)), "b", 200, map[2 := Candidate(Running, None)], true)])
  {
    assert RolledBack(BothHeld(), 1).held == map[2 := Candidate(Running, None)];
  }

  lemma SweepTakesSecond(t: Table)
    requires t == Table(map[1 := RENEWED, 2 := COMPLETED],
                        [Session(Claim(1000, Some(3)), "b", 200, map[2 := Candidate(Running, None)], true)])
    ensures var again := After(t, Accessed(0, 2));
            && again.rows == t.rows && TrialOf(again, 0, 2) == Won
            && 2 in After(again, Tried(0, 2)).rows && After(again, Tried(0, 2)).rows[2].status == Queued
  {
  }

  /**
   Two tasks and a race: while a sweep holds both, the worker of the first renews its lease and the
   second completes; the sweep loses the first and then queues the completed one again.
   */
  lemma LostRaceReopensFinishedTask(t: Table)
    requires t == Table(map[1 := RUNNING, 2 := RUNNING], [])
    ensures Rises(t, FIRST_THREE + RACE)
    ensures TrialOf(Run(t, FIRST_THREE), 0, 1) == Lost && Run(t, FIRST_THREE).rows == map[1 := RENEWED, 2 := COMPLETED]
    ensures var rows := Run(t, FIRST_THREE + RACE).rows; 2 in rows && COMPLETED.status.Final() && rows[2].status == Queued
  {
    WorkersMoveOn(t);
    var held := Run(t, FIRST_THREE);
    SweepLosesFirst(held);
    RaceRuns(held);
    RunAppend(t, FIRST_THREE, RACE);
  }

  lemma RaceRuns(t: Table)
    requires t == Table(map[1 := RENEWED, 2 := COMPLETED], [BothHeld()])
    ensures Rises(t, RACE) && 2 in Run(t, RACE).rows && Run(t, RACE).rows[2].status == Queued
  {
    SweepLosesFirst(t);
    SweepTakesSecond(After(t, Tried(0, 1)));
    RunNext(t, RACE, 0);
    RunNext(t, RACE, 1);
    RunNext(t, RACE, 2);
    assert RACE[..3] == RACE;
  }

  lemma {:induction false} RunAppend(t: Table, a: seq<Event>, b: seq<Event>)
    ensures Run(t, a + b) == Run(Run(t, a), b)
    ensures Rises(t, a + b) <==> Rises(t, a) && Rises(Run(t, a), b)
    decreases |b|
  {
    if b == [] {
      assert a + b == a;
    } else {
      assert (a + b)[..|a + b| - 1] == a + b[..|b| - 1];
      RunAppend(t, a, b[..|b| - 1]);
    }
  }

  lemma RunNext(t: Table, events: seq<Event>, n: nat)
    requires n < |events|
    ensures Run(t, events[..n + 1]) == After(Run(t, events[..n]), events[n])
    ensures var before := Run(t, events[..n]);
            Rises(t, events[..n + 1]) <==>
            && Rises(t, events[..n])
            && (events[n].Written? && events[n].id in before.rows ==> Raises(before.rows[events[n].id], events[n].step))
  {
    assert events[..n + 1][..n] == events[..n];
  }

  // ---- Counting claims -----------------------------------------------------------------------------

  /** Claims of the task that committed in the run. */
  function ClaimsOf(t: Table, events: seq<Event>, id: nat): nat {
    if events == [] then 0
    else
      var before, last := Run(t, events[..|events| - 1]), events[|events| - 1];
      ClaimsOf(t, events[..|events| - 1], id)
      + (if IsClaim(before, last, id) then 1 else 0)
  }

  predicate IsClaim(t: Table, event: Event, id: nat) {
    && event.Tried? && event.id == id && TrialOf(t, event.session, id) == Won
    && t.sessions[event.session].sweep.Claim?
  }

  lemma ClaimOnTheRow(t: Table, event: Event, id: nat, s: State)
    requires Agrees(t, id, s)
    ensures var steps := StepsOn(t, event, id);
            IsClaim(t, event, id) <==> steps != [] && ClaimsAt(s, steps[0])
  {
  }

  lemma {:induction false} ClaimsOnTheRow(t: Table, events: seq<Event>, id: nat)
    requires t.sessions == [] && id in t.rows
    ensures ClaimsOf(t, events, id) == Claims(RowState(t, id), StepsOf(t, events, id))
    decreases |events|
  {
    if events != [] {
      var prefix, last := events[..|events| - 1], events[|events| - 1];
      ClaimsOnTheRow(t, prefix, id);
      TableRefinesProtocol(t, prefix, id);
      var s, steps, more := RowState(t, id), StepsOf(t, prefix, id), StepsOn(Run(t, prefix), last, id);
      ClaimOnTheRow(Run(t, prefix), last, id, Exec(s, steps));
      ExecMore(s, steps, more);
    }
  }

  predicate OneLimit(events: seq<Event>, limit: int) {
    forall i :: 0 <= i < |events| && events[i].Opened? ==> SweepLimit(events[i].sweep, limit)
  }

  lemma {:induction false} StepsUseLimit(t: Table, events: seq<Event>, id: nat, limit: int)
    requires OneLimit(events, limit) && id in t.rows
    ensures UsesLimit(RowState(t, id), StepsOf(t, events, id), limit)
    decreases |events|
  {
    if events != [] {
      assert OneLimit(events[..|events| - 1], limit);
      StepsUseLimit(t, events[..|events| - 1], id, limit);
    }
  }

  /** Whatever races are lost and rows read again, a task is claimed at most as often as attempts were left. */
  lemma ClaimsOfATaskAreBounded(t: Table, events: seq<Event>, id: nat, limit: int)
    requires t.sessions == [] && Rises(t, events) && OneLimit(events, limit) && id in t.rows
    ensures ClaimsOf(t, events, id) <= Max(limit - Attempt(t.rows[id]), 0)
  {
    TableRefinesProtocol(t, events, id);
    ClaimsOnTheRow(t, events, id);
    StepsUseLimit(t, events, id, limit);
    ClaimsAreBounded(RowState(t, id), StepsOf(t, events, id), limit);
  }
}
