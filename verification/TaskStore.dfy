/** The task table, its recovery sweeps, and one recovery pass over it. */
module TaskStore {
  import opened Wrappers
  import opened BackgroundDispatch

  /** The order of the recovery query: by `updated_at`, then by row id. */
  predicate Earlier(rows: map<nat, Row>, a: nat, b: nat)
    requires a in rows && b in rows
  {
    rows[a].updatedAt < rows[b].updatedAt || (rows[a].updatedAt == rows[b].updatedAt && a < b)
  }

  predicate Distinct(ids: seq<nat>) {
    forall i, j :: 0 <= i < j < |ids| ==> ids[i] != ids[j]
  }

  function RecoverableIds(rows: map<nat, Row>): set<nat> {
    set id | id in rows && rows[id].status.Recoverable()
  }

  /** The ordered answer of the recovery query, cut at `bound` rows. */
  ghost predicate QueryResult(rows: map<nat, Row>, bound: nat, found: seq<nat>) {
    && |found| <= bound
    && (forall i :: 0 <= i < |found| ==> found[i] in RecoverableIds(rows))
    && (forall i, j :: 0 <= i < j < |found| ==> Earlier(rows, found[i], found[j]))
    && (forall id :: id in RecoverableIds(rows) && id !in found ==>
          |found| == bound && forall i :: 0 <= i < |found| ==> Earlier(rows, found[i], id))
  }

  /** A sweep takes at least one task and at most 500. */
  function MaxItems(limit: int): (items: nat)
    ensures 1 <= items <= 500
    ensures 1 <= limit <= 500 ==> items == limit
    ensures limit < 1 ==> items == 1
    ensures limit > 500 ==> items == 500
  {
    Max(Min(limit, 500), 1)
  }

  /** The candidates a sweep does not skip, in query order. */
  function Chosen(rows: map<nat, Row>, found: seq<nat>, sweep: Sweep, owner: string, timestamp: int): (ids: seq<nat>)
    requires forall id :: id in found ==> id in rows
    ensures |ids| <= |found|
  {
    if found == [] then []
    else
      var last := found[|found| - 1];
      Chosen(rows, found[..|found| - 1], sweep, owner, timestamp)
      + (if Selected(Looked(sweep, owner, timestamp, rows[last])) then [last] else [])
  }

  lemma {:induction false} ChosenIds(
    rows: map<nat, Row>, found: seq<nat>, sweep: Sweep, owner: string, timestamp: int)
    requires forall id :: id in found ==> id in rows
    ensures forall id :: id in Chosen(rows, found, sweep, owner, timestamp)
              <==> id in found && Selected(Looked(sweep, owner, timestamp, rows[id]))
    decreases |found|
  {
    if found != [] {
      var init, last := found[..|found| - 1], found[|found| - 1];
      ChosenIds(rows, init, sweep, owner, timestamp);
      assert found == init + [last];
    }
  }

  function Take(ids: seq<nat>, bound: nat): seq<nat> {
    if |ids| <= bound then ids else ids[..bound]
  }

  /** The table after one sweep committed `taken`. */
  function Swept(rows: map<nat, Row>, taken: seq<nat>, sweep: Sweep, owner: string, timestamp: int): map<nat, Row> {
    map id | id in rows ::
      if id in taken then Assigned(rows[id], Looked(sweep, owner, timestamp, rows[id])) else rows[id]
  }

  /** The rows a recovery pass touches once its time readings are fixed. */
  datatype Recovery = Recovery(owner: string, runner: string, failAt: int, claimAt: int,
                               leaseMs: int, maxAttempts: int, reason: string)
  {
    function Fails(): Sweep { Fail(maxAttempts, reason) }
    function Claims(): Sweep { Claim(leaseMs, Some(maxAttempts)) }

    predicate Failing(row: Row) { Selected(Looked(Fails(), owner, failAt, row)) }

    function AfterFail(row: Row): Row {
      if Failing(row) then Assigned(row, Looked(Fails(), owner, failAt, row)) else row
    }

    predicate Claiming(row: Row) { Selected(Looked(Claims(), owner, claimAt, AfterFail(row))) }

    function AfterClaim(row: Row): Row {
      if Claiming(row) then Assigned(AfterFail(row), Looked(Claims(), owner, claimAt, AfterFail(row)))
      else AfterFail(row)
    }

    /** The row after the pass; `startedAt` matters only for a row the pass restarts. */
    function After(row: Row, startedAt: int): Row {
      if Claiming(row) then DispatchStarted(AfterClaim(row), startedAt, runner, DEFAULT_LEASE_MS)
      else AfterClaim(row)
    }
  }

  class TaskStore {
    var rows: map<nat, Row>

    constructor (rows: map<nat, Row>)
      ensures this.rows == rows
    {
      this.rows := rows;
    }

    method WriteRow(id: nat, step: Step) returns (found: Option<Row>)
      requires step.Plain()
      modifies this
      ensures id !in old(rows) ==> found == None && rows == old(rows)
      ensures id in old(rows) ==> found == Some(Write(old(rows)[id], step)) && rows == old(rows)[id := found.value]
    {
      if id !in rows {
        return None;
      }
      var row := Write(rows[id], step);
      rows := rows[id := row];
      found := Some(row);
    }

    method Earliest(ids: set<nat>) returns (first: nat)
      requires ids != {} && ids <= rows.Keys
      ensures first in ids && forall id :: id in ids && id != first ==> Earlier(rows, first, id)
    {
      first :| first in ids;
      var others := ids - {first};
      while others != {}
        invariant first in ids && others <= ids && first !in others
        invariant forall id :: id in ids && id !in others && id != first ==> Earlier(rows, first, id)
        decreases others
      {
        var id :| id in others;
        others := others - {id};
        if Earlier(rows, id, first) {
          first := id;
        }
      }
    }

    method QueryRecoverable(bound: nat) returns (found: seq<nat>)
      ensures QueryResult(rows, bound, found)
    {
      found := [];
      var left := RecoverableIds(rows);
      while |found| < bound && left != {}
        invariant |found| <= bound
        invariant left <= RecoverableIds(rows)
        invariant forall id :: id in RecoverableIds(rows) <==> id in left || id in found
        invariant forall i :: 0 <= i < |found| ==> found[i] !in left
        invariant forall i, j :: 0 <= i < j < |found| ==> Earlier(rows, found[i], found[j])
        invariant forall i, id :: 0 <= i < |found| && id in left ==> Earlier(rows, found[i], id)
        decreases left
      {
        var first := Earliest(left);
        found := found + [first];
        left := left - {first};
      }
    }

    /** `claim_recoverable_background_tasks` and `fail_exhausted_background_recoveries`, run undisturbed. */
    method RunSweep(sweep: Sweep, owner: string, timestamp: int, limit: int)
      returns (taken: seq<nat>, ghost found: seq<nat>)
      modifies this
      ensures QueryResult(old(rows), 4 * MaxItems(limit), found)
      ensures taken == Take(Chosen(old(rows), found, sweep, owner, timestamp), MaxItems(limit))
      ensures var bound := if limit < 1 then 1 else if limit > 500 then 500 else limit;
              var chosen := Chosen(old(rows), found, sweep, owner, timestamp);
              |found| <= 4 * bound && taken <= chosen && |taken| == if |chosen| < bound then |chosen| else bound
      ensures rows == Swept(old(rows), taken, sweep, owner, timestamp)
    {
      var items := MaxItems(limit);
      var candidates := QueryRecoverable(items * 4);
      found := candidates;
      QueryIsDistinct(rows, items * 4, candidates);
      taken := CommitCandidates(candidates, sweep, owner, timestamp, items);
    }

    /** The loop of a sweep: commit the candidates it does not skip, `items` at most. */
    method CommitCandidates(candidates: seq<nat>, sweep: Sweep, owner: string, timestamp: int, items: nat)
      returns (taken: seq<nat>)
      requires Distinct(candidates) && forall id :: id in candidates ==> id in rows
      modifies this
      ensures taken == Take(Chosen(old(rows), candidates, sweep, owner, timestamp), items)
      ensures rows == Swept(old(rows), taken, sweep, owner, timestamp)
    {
      ghost var snapshot := rows;
      taken := [];
      var i := 0;
      while i < |candidates| && |taken| < items
        invariant 0 <= i <= |candidates| && |taken| <= items
        invariant taken == Chosen(snapshot, candidates[..i], sweep, owner, timestamp)
        invariant rows == Swept(snapshot, taken, sweep, owner, timestamp)
      {
        var id := candidates[i];
        ChosenNext(snapshot, candidates, i, sweep, owner, timestamp);
        assert rows[id] == snapshot[id];
        var read := Looked(sweep, owner, timestamp, rows[id]);
        if Commits(rows[id], read) {
          SweptNext(snapshot, taken, id, sweep, owner, timestamp);
          rows := rows[id := Assigned(rows[id], read)];
          taken := taken + [id];
        }
        i := i + 1;
      }
      TakeReached(snapshot, candidates, i, items, sweep, owner, timestamp);
    }
  }

  /** The query answers with queued and running rows, the longest untouched first, and cuts off later ones only. */
  lemma QueryIsOrdered(rows: map<nat, Row>, bound: nat, found: seq<nat>)
    requires QueryResult(rows, bound, found)
    ensures forall id :: id in found ==> id in rows && (rows[id].status == Queued || rows[id].status == Running)
    ensures forall i, j :: 0 <= i < j < |found| ==>
      && rows[found[i]].updatedAt <= rows[found[j]].updatedAt
      && (rows[found[i]].updatedAt == rows[found[j]].updatedAt ==> found[i] < found[j])
    ensures forall id :: id in rows && (rows[id].status == Queued || rows[id].status == Running) && id !in found ==>
      |found| == bound && forall i :: 0 <= i < |found| ==> rows[found[i]].updatedAt <= rows[id].updatedAt
  {
    forall i, j | 0 <= i < j < |found|
      ensures && rows[found[i]].updatedAt <= rows[found[j]].updatedAt
              && (rows[found[i]].updatedAt == rows[found[j]].updatedAt ==> found[i] < found[j])
    {
      assert Earlier(rows, found[i], found[j]);
    }
  }

  lemma QueryIsDistinct(rows: map<nat, Row>, bound: nat, found: seq<nat>)
    requires QueryResult(rows, bound, found)
    ensures Distinct(found) && forall id :: id in found ==> id in rows
  {
    forall i, j | 0 <= i < j < |found| ensures found[i] != found[j] {
      assert Earlier(rows, found[i], found[j]);
    }
  }

  lemma SweptNext(rows: map<nat, Row>, taken: seq<nat>, id: nat, sweep: Sweep, owner: string, timestamp: int)
    requires id in rows && id !in taken
    ensures Swept(rows, taken + [id], sweep, owner, timestamp)
            == Swept(rows, taken, sweep, owner, timestamp)
               [id := Assigned(rows[id], Looked(sweep, owner, timestamp, rows[id]))]
  {
  }

  lemma ChosenNext(rows: map<nat, Row>, found: seq<nat>, i: nat, sweep: Sweep, owner: string, timestamp: int)
    requires i < |found| && Distinct(found) && forall id :: id in found ==> id in rows
    ensures found[i] !in Chosen(rows, found[..i], sweep, owner, timestamp)
    ensures Chosen(rows, found[..i + 1], sweep, owner, timestamp)
            == Chosen(rows, found[..i], sweep, owner, timestamp)
               + (if Selected(Looked(sweep, owner, timestamp, rows[found[i]])) then [found[i]] else [])
  {
    assert found[..i + 1][..i] == found[..i];
    ChosenIds(rows, found[..i], sweep, owner, timestamp);
  }

  lemma {:induction false} ChosenPrefix(
    rows: map<nat, Row>, found: seq<nat>, i: nat, sweep: Sweep, owner: string, timestamp: int)
    requires i <= |found| && forall id :: id in found ==> id in rows
    ensures Chosen(rows, found[..i], sweep, owner, timestamp) <= Chosen(rows, found, sweep, owner, timestamp)
    decreases |found|
  {
    if i < |found| {
      assert found[..|found| - 1][..i] == found[..i];
      ChosenPrefix(rows, found[..|found| - 1], i, sweep, owner, timestamp);
    } else {
      assert found[..i] == found;
    }
  }

  lemma TakeReached(
    rows: map<nat, Row>, found: seq<nat>, i: nat, items: nat, sweep: Sweep, owner: string, timestamp: int)
    requires i <= |found| && forall id :: id in found ==> id in rows
    requires |Chosen(rows, found[..i], sweep, owner, timestamp)| <= items
    requires i == |found| || |Chosen(rows, found[..i], sweep, owner, timestamp)| == items
    ensures Take(Chosen(rows, found, sweep, owner, timestamp), items)
            == Chosen(rows, found[..i], sweep, owner, timestamp)
  {
    ChosenPrefix(rows, found, i, sweep, owner, timestamp);
    assert found[..|found|] == found;
  }

  lemma {:induction false} DistinctSize(ids: seq<nat>, all: set<nat>)
    requires Distinct(ids) && forall i :: 0 <= i < |ids| ==> ids[i] in all
    ensures |ids| <= |all|
    decreases |ids|
  {
    if ids != [] {
      var last := ids[|ids| - 1];
      DistinctSize(ids[..|ids| - 1], all - {last});
    }
  }

  /** A query bound above the number of eligible rows returns them all. */
  lemma QueryFindsAll(rows: map<nat, Row>, bound: nat, found: seq<nat>)
    requires QueryResult(rows, bound, found) && |RecoverableIds(rows)| <= bound
    ensures |found| <= |RecoverableIds(rows)|
    ensures forall id :: id in found <==> id in RecoverableIds(rows)
  {
    var all := RecoverableIds(rows);
    QueryIsDistinct(rows, bound, found);
    DistinctSize(found, all);
    forall id | id in all ensures id in found {
      if id !in found {
        DistinctSize(found, all - {id});
      }
    }
  }

  /** A sweep over a table that fits its limit takes exactly the selected rows. */
  lemma SweepTakesAll(rows: map<nat, Row>, found: seq<nat>, limit: int, sweep: Sweep, owner: string, timestamp: int)
    requires QueryResult(rows, 4 * MaxItems(limit), found) && |RecoverableIds(rows)| <= MaxItems(limit)
    ensures var taken := Take(Chosen(rows, found, sweep, owner, timestamp), MaxItems(limit));
            forall id :: id in taken <==> id in rows && Selected(Looked(sweep, owner, timestamp, rows[id]))
  {
    QueryFindsAll(rows, 4 * MaxItems(limit), found);
    ChosenIds(rows, found, sweep, owner, timestamp);
  }

  lemma {:induction false} ChosenDistinct(
    rows: map<nat, Row>, found: seq<nat>, i: nat, sweep: Sweep, owner: string, timestamp: int)
    requires i <= |found| && Distinct(found) && forall id :: id in found ==> id in rows
    ensures Distinct(Chosen(rows, found[..i], sweep, owner, timestamp))
    decreases i
  {
    if i > 0 {
      ChosenDistinct(rows, found, i - 1, sweep, owner, timestamp);
      ChosenNext(rows, found, i - 1, sweep, owner, timestamp);
    }
  }

  lemma TakenDistinct(rows: map<nat, Row>, bound: nat, found: seq<nat>, items: nat,
                      sweep: Sweep, owner: string, timestamp: int)
    requires QueryResult(rows, bound, found)
    ensures var taken := Take(Chosen(rows, found, sweep, owner, timestamp), items);
            Distinct(taken) && forall id :: id in taken ==> id in rows
  {
    QueryIsDistinct(rows, bound, found);
    ChosenIds(rows, found, sweep, owner, timestamp);
    ChosenDistinct(rows, found, |found|, sweep, owner, timestamp);
    assert found[..|found|] == found;
  }

  /** Restart the claimed tasks in order, one time reading each. */
  method RestartAll(store: TaskStore, ids: seq<nat>, runner: string, clock: nat -> int)
    requires Distinct(ids) && forall id :: id in ids ==> id in store.rows
    modifies store
    ensures store.rows.Keys == old(store.rows).Keys
    ensures forall i :: 0 <= i < |ids| ==>
      store.rows[ids[i]] == DispatchStarted(old(store.rows)[ids[i]], clock(i), runner, DEFAULT_LEASE_MS)
    ensures forall id :: id in old(store.rows) && id !in ids ==> store.rows[id] == old(store.rows)[id]
  {
    for i := 0 to |ids|
      invariant store.rows.Keys == old(store.rows).Keys
      invariant forall j :: 0 <= j < i ==>
        store.rows[ids[j]] == DispatchStarted(old(store.rows)[ids[j]], clock(j), runner, DEFAULT_LEASE_MS)
      invariant forall id :: id in old(store.rows) && id !in ids[..i] ==> store.rows[id] == old(store.rows)[id]
    {
      assert ids[..i + 1] == ids[..i] + [ids[i]];
      assert ids[i] !in ids[..i];
      var _ := store.WriteRow(ids[i], Started(clock(i), runner, DEFAULT_LEASE_MS));
    }
    assert ids[..|ids|] == ids;
  }

  /** The table a pass leaves, the tasks it failed and those it restarted, each one accounted for. */
  ghost predicate Recovered(pass: Recovery, before: map<nat, Row>, after: map<nat, Row>,
                            failed: seq<nat>, recovered: seq<nat>, clock: nat -> int)
  {
    && after.Keys == before.Keys
    && (forall id :: id in failed <==> id in before && pass.Failing(before[id]))
    && (forall id :: id in recovered <==> id in before && pass.Claiming(before[id]))
    && (forall i :: 0 <= i < |recovered| ==> after[recovered[i]] == pass.After(before[recovered[i]], clock(i)))
    && (forall id :: id in before && id !in recovered ==> after[id] == pass.AfterFail(before[id]))
  }

  /**
   One recovery pass: fail the exhausted, claim the rest, restart what was claimed. `failAt` and
   `claimAt` are the time readings of the two sweeps and `clock` those of the restarts.
   */
  method RecoverBackgroundTasks(store: TaskStore, pass: Recovery, limit: int, clock: nat -> int)
    returns (failed: seq<nat>, recovered: seq<nat>)
    modifies store
    ensures store.rows.Keys == old(store.rows).Keys
    ensures |RecoverableIds(old(store.rows))| <= MaxItems(limit) ==>
      Recovered(pass, old(store.rows), store.rows, failed, recovered, clock)
    ensures 1 <= limit <= 500 && |RecoverableIds(old(store.rows))| <= limit ==>
      Recovered(pass, old(store.rows), store.rows, failed, recovered, clock)
  {
    ghost var before := store.rows;
    failed, recovered := FailAndClaim(store, pass, limit);
    ghost var claimed := store.rows;
    RestartAll(store, recovered, pass.runner, clock);
    if |RecoverableIds(before)| <= MaxItems(limit) {
      RestartsFinishThePass(pass, before, claimed, store.rows, failed, recovered, clock);
    }
  }

  /** The two sweeps of a pass, the exhausted tasks first. */
  method FailAndClaim(store: TaskStore, pass: Recovery, limit: int)
    returns (failed: seq<nat>, claimed: seq<nat>)
    modifies store
    ensures store.rows.Keys == old(store.rows).Keys
    ensures Distinct(claimed) && forall id :: id in claimed ==> id in store.rows
    ensures |RecoverableIds(old(store.rows))| <= MaxItems(limit) ==>
      && (forall id :: id in failed <==> id in old(store.rows) && pass.Failing(old(store.rows)[id]))
      && (forall id :: id in claimed <==> id in old(store.rows) && pass.Claiming(old(store.rows)[id]))
      && (forall id :: id in old(store.rows) ==> store.rows[id] == pass.AfterClaim(old(store.rows)[id]))
  {
    ghost var before := store.rows;
    ghost var found;
    failed, found := store.RunSweep(pass.Fails(), pass.owner, pass.failAt, limit);
    ghost var between := store.rows;
    if |RecoverableIds(before)| <= MaxItems(limit) {
      FailSweep(pass, before, found, limit);
    }
    claimed, found := store.RunSweep(pass.Claims(), pass.owner, pass.claimAt, limit);
    TakenDistinct(between, 4 * MaxItems(limit), found, MaxItems(limit), pass.Claims(), pass.owner, pass.claimAt);
    if |RecoverableIds(before)| <= MaxItems(limit) {
      ClaimSweep(pass, before, between, found, limit);
    }
  }

  lemma RestartsFinishThePass(
    pass: Recovery, before: map<nat, Row>, claimed: map<nat, Row>, after: map<nat, Row>,
    failed: seq<nat>, recovered: seq<nat>, clock: nat -> int)
    requires after.Keys == claimed.Keys == before.Keys
    requires forall id :: id in failed <==> id in before && pass.Failing(before[id])
    requires forall id :: id in recovered <==> id in before && pass.Claiming(before[id])
    requires forall id :: id in before ==> claimed[id] == pass.AfterClaim(before[id])
    requires forall i :: 0 <= i < |recovered| ==>
      after[recovered[i]] == DispatchStarted(claimed[recovered[i]], clock(i), pass.runner, DEFAULT_LEASE_MS)
    requires forall id :: id in before && id !in recovered ==> after[id] == claimed[id]
    ensures Recovered(pass, before, after, failed, recovered, clock)
  {
    forall i | 0 <= i < |recovered|
      ensures after[recovered[i]] == pass.After(before[recovered[i]], clock(i))
    {
      assert recovered[i] in recovered;
      assert claimed[recovered[i]] == pass.AfterClaim(before[recovered[i]]);
    }
    forall id | id in before && id !in recovered ensures after[id] == pass.AfterFail(before[id]) {
      assert !pass.Claiming(before[id]);
    }
  }

  lemma FailSweep(pass: Recovery, rows: map<nat, Row>, found: seq<nat>, limit: int)
    requires QueryResult(rows, 4 * MaxItems(limit), found) && |RecoverableIds(rows)| <= MaxItems(limit)
    ensures var failed := Take(Chosen(rows, found, pass.Fails(), pass.owner, pass.failAt), MaxItems(limit));
            var swept := Swept(rows, failed, pass.Fails(), pass.owner, pass.failAt);
            && (forall id :: id in failed <==> id in rows && pass.Failing(rows[id]))
            && swept.Keys == rows.Keys
            && (forall id :: id in rows ==> swept[id] == pass.AfterFail(rows[id]))
            && |RecoverableIds(swept)| <= |RecoverableIds(rows)|
  {
    SweepTakesAll(rows, found, limit, pass.Fails(), pass.owner, pass.failAt);
    var failed := Take(Chosen(rows, found, pass.Fails(), pass.owner, pass.failAt), MaxItems(limit));
    FewerRecoverable(rows, Swept(rows, failed, pass.Fails(), pass.owner, pass.failAt));
  }

  lemma ClaimSweep(pass: Recovery, before: map<nat, Row>, rows: map<nat, Row>, found: seq<nat>, limit: int)
    requires QueryResult(rows, 4 * MaxItems(limit), found) && |RecoverableIds(rows)| <= MaxItems(limit)
    requires rows.Keys == before.Keys && forall id :: id in rows ==> rows[id] == pass.AfterFail(before[id])
    ensures var claimed := Take(Chosen(rows, found, pass.Claims(), pass.owner, pass.claimAt), MaxItems(limit));
            var swept := Swept(rows, claimed, pass.Claims(), pass.owner, pass.claimAt);
            && (forall id :: id in claimed <==> id in before && pass.Claiming(before[id]))
            && swept.Keys == rows.Keys
            && (forall id :: id in rows ==> swept[id] == pass.AfterClaim(before[id]))
  {
    SweepTakesAll(rows, found, limit, pass.Claims(), pass.owner, pass.claimAt);
  }

  lemma FewerRecoverable(before: map<nat, Row>, after: map<nat, Row>)
    requires after.Keys == before.Keys
    requires forall id :: id in before ==> after[id] == before[id] || !after[id].status.Recoverable()
    ensures |RecoverableIds(after)| <= |RecoverableIds(before)|
  {
    SubsetSize(RecoverableIds(after), RecoverableIds(before));
  }

  lemma {:induction false} SubsetSize(small: set<nat>, large: set<nat>)
    requires small <= large
    ensures |small| <= |large|
    decreases small
  {
    if small != {} {
      var id :| id in small;
      SubsetSize(small - {id}, large - {id});
    }
  }

  /**
   Totality of a pass, row by row, with clocks that do not run backwards: a queued or running row
   without a live lease ends FAILED exactly when its attempts are used up, and otherwise running
   under the runner with a fresh lease of five minutes and two attempts more. A lease that ends between the two time
   readings leaves an exhausted row for the next pass, and any other row restarted. Every row that is
   live at the claim or has another status is untouched.
   */
  lemma RecoveryIsTotal(pass: Recovery, row: Row, startedAt: int, now: int)
    requires pass.failAt <= pass.claimAt
    ensures var after := pass.After(row, startedAt);
            var listed := row.status == Queued || row.status == Running;
            var exhausted := Attempt(row) >= 1 && Attempt(row) >= pass.maxAttempts;
            && (listed && !Live(row, pass.failAt) ==>
                  && (exhausted <==> after.status == Failed)
                  && (exhausted ==> !Live(after, pass.failAt) && Attempt(after) == Attempt(row)
                                    && Entry(after).owner == pass.owner && after.error == Some(pass.reason)
                                    && after.endedAt == Some(after.updatedAt) && after.updatedAt > row.updatedAt)
                  && (!exhausted ==> after.status == Queued && after.endedAt == None
                                     && after.updatedAt == startedAt
                                     && (Live(after, now) <==> now < startedAt + 300000)
                                     && Entry(after).owner == pass.runner && Attempt(after) == Attempt(row) + 2))
            && (listed && Live(row, pass.failAt) && !Live(row, pass.claimAt) ==>
                  && (exhausted ==> after == row)
                  && (!exhausted ==> after.status == Queued && after.updatedAt == startedAt
                                     && (Live(after, now) <==> now < startedAt + 300000)
                                     && Entry(after).owner == pass.runner && Attempt(after) == Attempt(row) + 2))
            && (!listed || Live(row, pass.claimAt) ==> after == row)
            && after.rest == row.rest && after.startedAt == row.startedAt
  {
  }

  /** Between its claim and its restart a task is held by the sweep, from the claim on, for the lease asked for. */
  lemma ClaimedMeanwhile(pass: Recovery, row: Row, now: int)
    requires pass.Claiming(row)
    ensures var claimed := pass.AfterClaim(row);
            && claimed.updatedAt >= pass.claimAt && Entry(claimed).owner == pass.owner
            && (Live(claimed, now) <==> now < claimed.updatedAt + (if pass.leaseMs < 1 then 1 else pass.leaseMs))
  {
  }
}
