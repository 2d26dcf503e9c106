/**
 Two read-modify-write transactions taken apart: between the read and the write of one request other
 requests may act, as they may where the database does not isolate transactions, since neither write
 compares the version of what was read.
 */
module StaleWrites {
  import opened Wrappers
  import D = BackgroundDispatch
  import A = AuthSessions

  // ---- Consuming one OAuth state ---------------------------------------------------------------

  /** The row of one state, and the requests that passed their checks, with their time readings. */
  datatype Desk = Desk(row: Option<A.OAuthState>, passed: map<nat, int>)

  datatype ConsumeEvent = Checks(request: nat, ticket: A.Ticket, at: int) | Saves(request: nat) | Deletes

  /** The checks pass on the row as it is now. */
  predicate Passes(row: Option<A.OAuthState>, ticket: A.Ticket, at: int) {
    row.Some? && row.value.consumedAt.None? && A.Redeems(ticket, at, ticket.state, row.value)
  }

  /** Saving fails when the row is gone; otherwise the caller is told that the state was consumed. */
  predicate Succeeds(d: Desk, event: ConsumeEvent) {
    event.Saves? && event.request in d.passed && d.row.Some?
  }

  function Consumed(row: A.OAuthState, at: int): A.OAuthState { row.(consumedAt := Some(at)) }

  function AfterEvent(d: Desk, event: ConsumeEvent): Desk {
    match event
    case Checks(request, ticket, at) =>
      if Passes(d.row, ticket, at) then d.(passed := d.passed[request := at]) else d
    case Saves(request) =>
      if request !in d.passed then d
      else Desk(if d.row.Some? then Some(Consumed(d.row.value, d.passed[request])) else None, d.passed - {request})
    case Deletes => d.(row := None)
  }

  function Serve(d: Desk, events: seq<ConsumeEvent>): Desk {
    if events == [] then d else AfterEvent(Serve(d, events[..|events| - 1]), events[|events| - 1])
  }

  /** The checks of the transaction taken apart are those of the whole one. */
  lemma PassesAsConsume(db: A.Db, ticket: A.Ticket, at: int)
    ensures A.ConsumeError(db, ticket, at) == None
            <==> Passes(if ticket.state in db.states then Some(db.states[ticket.state]) else None, ticket, at)
  {
  }

  predicate Spent(d: Desk) { d.row.None? || d.row.value.consumedAt.Some? }

  /** Once a state is spent no further request passes, and the ones that passed wait for their own save. */
  lemma {:induction false} PassedStay(d: Desk, events: seq<ConsumeEvent>, request: nat)
    requires Spent(d) && forall i :: 0 <= i < |events| ==> events[i] != Saves(request)
    ensures Spent(Serve(d, events)) && (request in Serve(d, events).passed <==> request in d.passed)
    ensures d.row.Some? && Deletes !in events ==> Serve(d, events).row.Some?
    decreases |events|
  {
    if events != [] {
      PassedStay(d, events[..|events| - 1], request);
    }
  }

  /**
   The exact condition under which a state is consumed twice: after one success another request still
   succeeds exactly when it had passed its checks before the first one saved.
   */
  lemma SecondConsumeSucceedsExactlyWhen(d: Desk, first: ConsumeEvent, between: seq<ConsumeEvent>, request: nat)
    requires Succeeds(d, first) && Saves(request) !in between && Deletes !in between
    ensures Succeeds(Serve(AfterEvent(d, first), between), Saves(request))
            <==> request in d.passed && request != first.request
  {
    PassedStay(AfterEvent(d, first), between, request);
  }

  /** Requests pass and save one at a time. */
  predicate OneAtATime(d: Desk, events: seq<ConsumeEvent>) {
    events == [] ||
    (var before, last := Serve(d, events[..|events| - 1]), events[|events| - 1];
     && OneAtATime(d, events[..|events| - 1])
     && (last.Checks? ==> before.passed.Keys <= {last.request}))
  }

  function Successes(d: Desk, events: seq<ConsumeEvent>): nat {
    if events == [] then 0
    else Successes(d, events[..|events| - 1])
         + (if Succeeds(Serve(d, events[..|events| - 1]), events[|events| - 1]) then 1 else 0)
  }

  /** One at a time, a state is consumed at most once, whatever is deleted meanwhile. */
  lemma {:induction false} ConsumedOnceOneAtATime(d: Desk, events: seq<ConsumeEvent>)
    requires d.passed == map[] && OneAtATime(d, events)
    ensures var after := Serve(d, events);
            && Successes(d, events) <= 1
            && |after.passed.Keys| <= 1
            && (Successes(d, events) == 1 ==> Spent(after) && after.passed == map[])
    decreases |events|
  {
    if events != [] {
      var prefix, last := events[..|events| - 1], events[|events| - 1];
      var before := Serve(d, prefix);
      ConsumedOnceOneAtATime(d, prefix);
      match last
      case Checks(request, ticket, at) =>
        if Passes(before.row, ticket, at) {
          assert AfterEvent(before, last).passed.Keys == {request};
        }
      case Saves(request) =>
        if request in before.passed {
          OnlyKey(before.passed, request);
        }
      case Deletes =>
    }
  }

  lemma OnlyKey(passed: map<nat, int>, request: nat)
    requires request in passed && |passed.Keys| <= 1
    ensures passed.Keys == {request} && passed - {request} == map[]
  {
    assert passed.Keys == {request} by {
      if other :| other in passed.Keys && other != request {
        Smaller({other, request}, passed.Keys);
      }
    }
  }

  lemma Smaller(small: set<nat>, large: set<nat>)
    requires small <= large
    ensures |small| <= |large|
  {
    assert large == small + (large - small);
  }

  /** Two overlapping requests with one ticket are both told that they consumed it. */
  lemma TwoOverlappingConsumes(d: Desk, ticket: A.Ticket, at: int)
    requires d.passed == map[] && Passes(d.row, ticket, at)
    ensures Successes(d, [Checks(1, ticket, at), Checks(2, ticket, at), Saves(1), Saves(2)]) == 2
  {
    var events := [Checks(1, ticket, at), Checks(2, ticket, at), Saves(1), Saves(2)];
    var both := d.(passed := map[1 := at, 2 := at]);
    ServeNext(d, events, 0);
    ServeNext(d, events, 1);
    assert Serve(d, events[..2]) == both;
    ServeNext(d, events, 2);
    assert both.passed - {1} == map[2 := at];
    ServeNext(d, events, 3);
    assert events[..4] == events;
  }

  lemma ServeNext(d: Desk, events: seq<ConsumeEvent>, n: nat)
    requires n < |events|
    ensures Serve(d, events[..n + 1]) == AfterEvent(Serve(d, events[..n]), events[n])
    ensures Successes(d, events[..n + 1])
            == Successes(d, events[..n]) + (if Succeeds(Serve(d, events[..n]), events[n]) then 1 else 0)
  {
    assert events[..n + 1][..n] == events[..n];
  }

  // ---- Renewing a lease ----------------------------------------------------------------------------

  /** The one-row protocol, and the rows that renewals read and found allowed, by request. */
  datatype Workers = Workers(state: D.State, renewals: map<nat, D.Row>)

  datatype RenewEvent =
    | Other(step: D.Step)
    | ReadsLease(request: nat, owner: string)
    | SavesLease(request: nat, at: int, leaseMs: int)

  /** The two columns a renewal assigns, computed from the row it read. */
  function Renewed(row: D.Row, read: D.Row, at: int, leaseMs: int): D.Row {
    row.(dispatch := D.Renew(read, at, D.Entry(read).owner, leaseMs).dispatch, rest := read.rest, updatedAt := at)
  }

  function AfterRenew(w: Workers, event: RenewEvent): Workers {
    match event
    case Other(step) => w.(state := D.Next(w.state, step))
    case ReadsLease(request, owner) =>
      if D.RenewAllowed(w.state.row, owner) then w.(renewals := w.renewals[request := w.state.row]) else w
    case SavesLease(request, at, leaseMs) =>
      if request !in w.renewals then w
      else Workers(w.state.(row := Renewed(w.state.row, w.renewals[request], at, leaseMs)), w.renewals - {request})
  }

  function Work(w: Workers, events: seq<RenewEvent>): Workers {
    if events == [] then w else AfterRenew(Work(w, events[..|events| - 1]), events[|events| - 1])
  }

  /** Read and saved at once, a renewal is the whole transaction. */
  lemma RenewAtOnce(w: Workers, request: nat, owner: string, at: int, leaseMs: int)
    requires request !in w.renewals
    ensures Work(w, [ReadsLease(request, owner), SavesLease(request, at, leaseMs)]).state.row
            == D.Renew(w.state.row, at, owner, leaseMs)
  {
    var events := [ReadsLease(request, owner), SavesLease(request, at, leaseMs)];
    assert events[..1][..0] == [];
    assert Work(w, events[..1]) == AfterRenew(w, events[0]);
    assert Work(w, events) == AfterRenew(Work(w, events[..1]), events[1]);
  }

  /** The owner neither starts nor sweeps the task. */
  predicate StaysAway(owner: string, events: seq<RenewEvent>) {
    forall i :: 0 <= i < |events| && events[i].Other? ==>
      (events[i].step.Started? || events[i].step.Look?) ==> events[i].step.owner != owner
  }

  predicate NoSweepBy(owner: string, w: Workers) {
    forall k :: k in w.state.pending ==> w.state.pending[k].owner != owner
  }

  /** A renewal of this owner has read the row and is still to be saved. */
  predicate Outstanding(owner: string, w: Workers) {
    exists r :: r in w.renewals && D.Entry(w.renewals[r]).owner == owner
  }

  predicate HeldBySomeoneElse(owner: string, w: Workers) {
    w.state.row.dispatch.Some? && w.state.row.dispatch.value.owner != owner
  }

  /** What was read had a dispatch, and passed the check of its own owner. */
  predicate ReadsAllowed(w: Workers) {
    forall r :: r in w.renewals ==> D.RenewAllowed(w.renewals[r], D.Entry(w.renewals[r]).owner)
  }

  lemma {:induction false} NothingOutstandingNothingBack(w: Workers, events: seq<RenewEvent>, owner: string)
    requires HeldBySomeoneElse(owner, w) && NoSweepBy(owner, w) && ReadsAllowed(w) && !Outstanding(owner, w)
    requires StaysAway(owner, events)
    ensures var after := Work(w, events);
            && HeldBySomeoneElse(owner, after) && NoSweepBy(owner, after)
            && ReadsAllowed(after) && !Outstanding(owner, after)
    decreases |events|
  {
    if events != [] {
      NothingOutstandingNothingBack(w, events[..|events| - 1], owner);
    }
  }

  /** This run gives the dispatch back to the owner. */
  predicate ComesBack(w: Workers, events: seq<RenewEvent>, owner: string) {
    StaysAway(owner, events) && !HeldBySomeoneElse(owner, Work(w, events))
  }

  /**
   The exact condition under which an owner that lost the dispatch can have it back without starting
   or sweeping the task: one of its renewals had read the row before the loss and is not saved yet.
   */
  lemma LostDispatchComesBackExactlyWhen(w: Workers, owner: string)
    requires HeldBySomeoneElse(owner, w) && NoSweepBy(owner, w) && ReadsAllowed(w)
    ensures (exists events :: ComesBack(w, events, owner)) <==> Outstanding(owner, w)
  {
    if Outstanding(owner, w) {
      var r :| r in w.renewals && D.Entry(w.renewals[r]).owner == owner;
      var events := [SavesLease(r, 0, 1)];
      assert events[..0] == [];
      assert Work(w, events) == AfterRenew(w, events[0]);
      assert ComesBack(w, events, owner);
    }
    if events :| ComesBack(w, events, owner) {
      if !Outstanding(owner, w) {
        NothingOutstandingNothingBack(w, events, owner);
      }
    }
  }
}
