/**
 The run-event log of a session: number assignment, the number predicted for live output, and the
 polling stream that resumes from a number.
 */
module SessionEvents {
  import opened Wrappers

  /** A session event as a reader sees it. */
  datatype Item = Item(number: int, eventId: string)

  /** A stored run event; rows are kept in id order. */
  datatype RunEvent = RunEvent(sessionId: string, item: Item)

  const QUERY_LIMIT := 10000

  // ---- Numbers -------------------------------------------------------------------------------

  function LatestNumber(log: seq<Item>): (n: nat) {
    if log == [] then 0 else Max(LatestNumber(log[..|log| - 1]), log[|log| - 1].number)
  }

  lemma {:induction false} LatestIsGreatest(log: seq<Item>)
    ensures forall i :: 0 <= i < |log| ==> log[i].number <= LatestNumber(log)
    ensures LatestNumber(log) == 0 || exists i :: 0 <= i < |log| && log[i].number == LatestNumber(log)
    decreases |log|
  {
    if log != [] {
      var init := log[..|log| - 1];
      LatestIsGreatest(init);
      if LatestNumber(log) == LatestNumber(init) != 0 {
        var i :| 0 <= i < |init| && init[i].number == LatestNumber(init);
        assert log[i].number == LatestNumber(log);
      }
    }
  }

  predicate Holds(log: seq<Item>, eventId: string) {
    exists i :: 0 <= i < |log| && log[i].eventId == eventId
  }

  /** The number stored for an event: the caller's if it gave one, else the next. */
  function NumberFor(log: seq<Item>, supplied: Option<int>): int {
    var n := if supplied.Some? then supplied.value else LatestNumber(log) + 1;
    if n == 0 then 1 else Max(n, 1)
  }

  /** The session's log after the event is added; adding it again changes nothing. */
  function Added(log: seq<Item>, eventId: string, supplied: Option<int>): seq<Item> {
    if Holds(log, eventId) then log else log + [Item(NumberFor(log, supplied), eventId)]
  }

  /** A number that a caller gives is kept, raised to one at least; otherwise it is one past all others. */
  lemma NumberGiven(log: seq<Item>, eventId: string, supplied: int)
    requires !Holds(log, eventId)
    ensures var after := Added(log, eventId, Some(supplied));
            && after[..|log|] == log && |after| == |log| + 1
            && after[|log|] == Item(if supplied < 1 then 1 else supplied, eventId)
  {
  }

  lemma NumberChosen(log: seq<Item>, eventId: string)
    requires !Holds(log, eventId)
    ensures var after := Added(log, eventId, None);
            && after[..|log|] == log && |after| == |log| + 1 && after[|log|].eventId == eventId
            && after[|log|].number >= 1
            && forall i :: 0 <= i < |log| ==> log[i].number < after[|log|].number
  {
    LatestIsGreatest(log);
  }

  /** The log is numbered 1, 2, ... in insertion order, without gaps. */
  predicate Numbered(log: seq<Item>) {
    forall i :: 0 <= i < |log| ==> log[i].number == i + 1
  }

  predicate Unique(log: seq<Item>) {
    forall i, j :: 0 <= i < j < |log| ==> log[i].eventId != log[j].eventId
  }

  lemma NumberedLatest(log: seq<Item>)
    requires Numbered(log)
    ensures LatestNumber(log) == |log|
  {
    LatestIsGreatest(log);
    if log != [] {
      assert log[|log| - 1].number == |log|;
    }
  }

  function AddAll(log: seq<Item>, eventIds: seq<string>): seq<Item> {
    if eventIds == [] then log
    else Added(AddAll(log, eventIds[..|eventIds| - 1]), eventIds[|eventIds| - 1], None)
  }

  lemma AddKeepsNumbers(log: seq<Item>, eventId: string)
    requires Numbered(log) && Unique(log)
    ensures var after := Added(log, eventId, None);
            && Numbered(after) && Unique(after)
            && forall other :: Holds(after, other) <==> Holds(log, other) || other == eventId
  {
    NumberedLatest(log);
    var after := Added(log, eventId, None);
    if !Holds(log, eventId) {
      assert after[|log|].eventId == eventId;
      assert forall i :: 0 <= i < |log| ==> after[i] == log[i];
    }
  }

  /** When no caller supplies a number every event is stored once, under gap-free numbers. */
  lemma {:induction false} NumbersAreGapFree(eventIds: seq<string>)
    ensures Numbered(AddAll([], eventIds)) && Unique(AddAll([], eventIds))
    ensures forall eventId :: eventId in eventIds <==> Holds(AddAll([], eventIds), eventId)
    decreases |eventIds|
  {
    if eventIds != [] {
      var prefix, last := eventIds[..|eventIds| - 1], eventIds[|eventIds| - 1];
      NumbersAreGapFree(prefix);
      AddKeepsNumbers(AddAll([], prefix), last);
      assert eventIds == prefix + [last];
    }
  }

  // ---- One session under task events, direct events and polls ------------------------------------

  /** `legacy`: the ids of the session's task events, mirrored into `log` or not, oldest first. */
  datatype Session = Session(log: seq<Item>, legacy: seq<string>)

  /** The task events missing from the log. */
  function Unmirrored(log: seq<Item>, legacy: seq<string>): seq<string> {
    if legacy == [] then []
    else Unmirrored(log, legacy[..|legacy| - 1])
         + (if Holds(log, legacy[|legacy| - 1]) then [] else [legacy[|legacy| - 1]])
  }

  function NumberFrom(n: int, eventIds: seq<string>): (items: seq<Item>)
    ensures |items| == |eventIds|
    ensures forall i :: 0 <= i < |items| ==> items[i] == Item(n + 1 + i, eventIds[i])
  {
    seq(|eventIds|, i requires 0 <= i < |eventIds| => Item(n + 1 + i, eventIds[i]))
  }

  function Visible(log: seq<Item>): seq<Item> {
    if |log| <= QUERY_LIMIT then log else log[..QUERY_LIMIT]
  }

  /** Readers see the first ten thousand stored events. */
  lemma VisibleIsFirst(log: seq<Item>)
    ensures Visible(log) <= log && |Visible(log)| == if |log| <= 10000 then |log| else 10000
  {
  }

  /** What readers see: the stored events, then the unmirrored ones under provisional numbers. */
  function Collected(s: Session): seq<Item> {
    var stored := Visible(s.log);
    stored + NumberFrom(LatestNumber(stored), Unmirrored(stored, s.legacy))
  }

  /** The number stamped on live output before the event is stored. */
  function Predicted(s: Session): int {
    var stored := Visible(s.log);
    if stored != [] then LatestNumber(stored) + |Unmirrored(stored, s.legacy)| + 1
    else |s.legacy| + 1
  }

  datatype Step =
    | TaskEvent(eventId: string, mirrored: bool)
    | DirectEvent(eventId: string)

  function Next(s: Session, step: Step): Session {
    match step
    case TaskEvent(eventId, mirrored) =>
      Session(if mirrored then Added(s.log, eventId, None) else s.log, s.legacy + [eventId])
    case DirectEvent(eventId) => s.(log := Added(s.log, eventId, None))
  }

  function Exec(steps: seq<Step>): Session {
    if steps == [] then Session([], []) else Next(Exec(steps[..|steps| - 1]), steps[|steps| - 1])
  }

  lemma {:induction false} LogIsNumbered(steps: seq<Step>)
    ensures Numbered(Exec(steps).log)
    decreases |steps|
  {
    if steps != [] {
      LogIsNumbered(steps[..|steps| - 1]);
      NumberedLatest(Exec(steps[..|steps| - 1]).log);
    }
  }

  lemma {:induction false} NothingUnmirrored(log: seq<Item>, legacy: seq<string>)
    ensures Unmirrored(log, legacy) == [] <==> forall i :: 0 <= i < |legacy| ==> Holds(log, legacy[i])
    decreases |legacy|
  {
    if legacy != [] {
      NothingUnmirrored(log, legacy[..|legacy| - 1]);
    }
  }

  lemma {:induction false} NothingHeld(legacy: seq<string>)
    ensures Unmirrored([], legacy) == legacy
    decreases |legacy|
  {
    if legacy != [] {
      var init, last := legacy[..|legacy| - 1], legacy[|legacy| - 1];
      NothingHeld(init);
      assert !Holds([], last) && legacy == init + [last];
    }
  }

  /**
   The predicted number is the one the next stored event gets exactly when every task event so far
   was mirrored, in any history within the query limit.
   */
  lemma PredictionIsExact(steps: seq<Step>)
    requires |Exec(steps).log| <= QUERY_LIMIT
    ensures var s := Exec(steps);
            Predicted(s) == NumberFor(s.log, None)
            <==> forall i :: 0 <= i < |s.legacy| ==> Holds(s.log, s.legacy[i])
  {
    LogIsNumbered(steps);
    PredictedNumber(Exec(steps));
    NothingUnmirrored(Exec(steps).log, Exec(steps).legacy);
  }

  lemma PredictedNumber(s: Session)
    requires Numbered(s.log) && |s.log| <= QUERY_LIMIT
    ensures Predicted(s) == |s.log| + |Unmirrored(s.log, s.legacy)| + 1 && NumberFor(s.log, None) == |s.log| + 1
  {
    NumberedLatest(s.log);
    if s.log == [] {
      NothingHeld(s.legacy);
    }
  }

  predicate AllMirrored(steps: seq<Step>) {
    forall i :: 0 <= i < |steps| && steps[i].TaskEvent? ==> steps[i].mirrored
  }

  lemma {:induction false} MirroredEventsAreHeld(steps: seq<Step>)
    requires AllMirrored(steps)
    ensures forall i :: 0 <= i < |Exec(steps).legacy| ==> Holds(Exec(steps).log, Exec(steps).legacy[i])
    decreases |steps|
  {
    if steps != [] {
      MirroredEventsAreHeld(steps[..|steps| - 1]);
      var before, after := Exec(steps[..|steps| - 1]), Exec(steps);
      forall i | 0 <= i < |after.legacy| ensures Holds(after.log, after.legacy[i]) {
        if i < |before.legacy| {
          var j :| 0 <= j < |before.log| && before.log[j].eventId == before.legacy[i];
          assert after.log[j].eventId == after.legacy[i];
        } else if !Holds(before.log, after.legacy[i]) {
          assert after.log[|before.log|].eventId == after.legacy[i];
        }
      }
    }
  }

  // ---- The resume stream ---------------------------------------------------------------------

  function After(items: seq<Item>, cursor: int): seq<Item> {
    if items == [] then []
    else After(items[..|items| - 1], cursor)
         + (if items[|items| - 1].number > cursor then [items[|items| - 1]] else [])
  }

  function PageSize(limit: int): (size: nat)
    ensures 1 <= limit <= 10000 ==> size == limit
    ensures limit < 1 ==> size == 1
    ensures limit > 10000 ==> size == 10000
  {
    Max(Min(limit, QUERY_LIMIT), 1)
  }

  function FirstPage(wanted: seq<Item>, limit: int): seq<Item> {
    if |wanted| <= PageSize(limit) then wanted else wanted[..PageSize(limit)]
  }

  function Page(items: seq<Item>, cursor: int, limit: int): seq<Item> { FirstPage(After(items, cursor), limit) }

  /** A reader: the session it follows, its cursor and what it was sent. */
  datatype Stream = Stream(session: Session, cursor: nat, sent: seq<Item>)

  datatype Action = Write(step: Step) | Poll(limit: int)

  function Act(s: Stream, action: Action): Stream {
    match action
    case Write(step) => s.(session := Next(s.session, step))
    case Poll(limit) =>
      var page := Page(Collected(s.session), s.cursor, limit);
      Stream(s.session, Max(s.cursor, LatestNumber(page)), s.sent + page)
  }

  function Follow(afterSeq: nat, actions: seq<Action>): Stream {
    if actions == [] then Stream(Session([], []), afterSeq, [])
    else Act(Follow(afterSeq, actions[..|actions| - 1]), actions[|actions| - 1])
  }

  function Writes(actions: seq<Action>): seq<Step> {
    if actions == [] then []
    else Writes(actions[..|actions| - 1])
         + (if actions[|actions| - 1].Write? then [actions[|actions| - 1].step] else [])
  }

  lemma {:induction false} FollowsTheSession(afterSeq: nat, actions: seq<Action>)
    ensures Follow(afterSeq, actions).session == Exec(Writes(actions))
    decreases |actions|
  {
    if actions != [] {
      var prefix, last := actions[..|actions| - 1], actions[|actions| - 1];
      FollowsTheSession(afterSeq, prefix);
      if last.Write? {
        assert (Writes(prefix) + [last.step])[..|Writes(prefix)|] == Writes(prefix);
      } else {
        assert Writes(prefix) + [] == Writes(prefix);
      }
    }
  }

  /** In a numbered log the entries after a cursor are the rest of the log. */
  lemma {:induction false} AfterIsRest(items: seq<Item>, cursor: nat)
    requires Numbered(items)
    ensures After(items, cursor) == if cursor <= |items| then items[cursor..] else []
    decreases |items|
  {
    if items != [] {
      var init, last := items[..|items| - 1], items[|items| - 1];
      AfterIsRest(init, cursor);
      if cursor <= |init| {
        assert items[cursor..] == init[cursor..] + [last];
      } else {
        assert last.number <= cursor;
        assert After(items, cursor) == After(init, cursor) + [];
      }
    }
  }

  /** With every event mirrored and the log within the query limit, readers see the log itself. */
  lemma CollectedIsTheLog(steps: seq<Step>)
    requires AllMirrored(steps) && |Exec(steps).log| <= QUERY_LIMIT
    ensures Collected(Exec(steps)) == Exec(steps).log
  {
    MirroredEventsAreHeld(steps);
    NothingUnmirrored(Exec(steps).log, Exec(steps).legacy);
  }

  /** What was sent is the log from `afterSeq` up to the cursor. */
  predicate InStep(log: seq<Item>, afterSeq: nat, cursor: int, sent: seq<Item>) {
    if afterSeq <= cursor <= |log| then sent == log[afterSeq..cursor]
    else cursor == afterSeq && sent == []
  }

  lemma FirstPageOfRest(log: seq<Item>, wanted: seq<Item>, cursor: nat, limit: int)
    requires wanted == if cursor <= |log| then log[cursor..] else []
    ensures var page := FirstPage(wanted, limit);
            && (cursor + |page| <= |log| || page == [])
            && (page != [] ==> page == log[cursor..cursor + |page|])
            && (cursor + |page| >= |log| <==> |log| - cursor <= PageSize(limit))
  {
  }

  lemma PageIsNext(log: seq<Item>, cursor: nat, limit: int)
    requires Numbered(log)
    ensures var page := Page(log, cursor, limit);
            && (cursor + |page| <= |log| || page == [])
            && (page != [] ==> page == log[cursor..cursor + |page|])
            && (cursor + |page| >= |log| <==> |log| - cursor <= PageSize(limit))
  {
    AfterIsRest(log, cursor);
    FirstPageOfRest(log, After(log, cursor), cursor, limit);
  }

  lemma LatestOfStretch(page: seq<Item>, cursor: nat)
    requires page != [] && forall i :: 0 <= i < |page| ==> page[i].number == cursor + i + 1
    ensures LatestNumber(page) == cursor + |page|
  {
    LatestIsGreatest(page);
    assert page[|page| - 1].number == cursor + |page|;
  }

  /** The cursor moves to the end of the page. */
  lemma CursorMoves(log: seq<Item>, page: seq<Item>, cursor: nat)
    requires Numbered(log)
    requires page == [] || (cursor + |page| <= |log| && page == log[cursor..cursor + |page|])
    ensures Max(cursor, LatestNumber(page)) == cursor + |page|
  {
    if page != [] {
      forall i | 0 <= i < |page| ensures page[i].number == cursor + i + 1 {
        assert page[i] == log[cursor + i];
      }
      LatestOfStretch(page, cursor);
    }
  }

  lemma PollKeepsStep(log: seq<Item>, afterSeq: nat, cursor: int, sent: seq<Item>, limit: int)
    requires Numbered(log) && InStep(log, afterSeq, cursor, sent)
    ensures var page := Page(log, cursor, limit);
            InStep(log, afterSeq, Max(cursor, LatestNumber(page)), sent + page)
  {
    var page := Page(log, cursor, limit);
    PageIsNext(log, cursor, limit);
    CursorMoves(log, page, cursor);
    if page == [] {
      assert sent + page == sent;
    } else {
      SentPage(log, log, afterSeq, cursor, sent, page);
    }
  }

  lemma WriteKeepsStep(log: seq<Item>, more: seq<Item>, afterSeq: nat, cursor: int, sent: seq<Item>)
    requires InStep(log, afterSeq, cursor, sent)
    ensures InStep(log + more, afterSeq, cursor, sent)
  {
    if afterSeq <= cursor <= |log| {
      assert (log + more)[afterSeq..cursor] == log[afterSeq..cursor];
    } else if cursor <= |log + more| {
      assert (log + more)[afterSeq..cursor] == [];
    }
  }

  lemma ActKeepsStep(s: Stream, afterSeq: nat, action: Action)
    requires InStep(s.session.log, afterSeq, s.cursor, s.sent)
    requires action.Poll? ==> Numbered(s.session.log) && Collected(s.session) == s.session.log
    ensures var after := Act(s, action); InStep(after.session.log, afterSeq, after.cursor, after.sent)
  {
    match action
    case Write(step) =>
      var log := Next(s.session, step).log;
      assert log == s.session.log + log[|s.session.log|..];
      WriteKeepsStep(s.session.log, log[|s.session.log|..], afterSeq, s.cursor, s.sent);
    case Poll(limit) =>
      PollKeepsStep(s.session.log, afterSeq, s.cursor, s.sent, limit);
  }

  /** A history within the hypotheses of the delivery theorem: all mirrored, within the query limit. */
  predicate Covered(steps: seq<Step>) {
    AllMirrored(steps) && |Exec(steps).log| <= QUERY_LIMIT
  }

  lemma CoveredPrefix(steps: seq<Step>, step: Step)
    requires Covered(steps + [step])
    ensures Covered(steps)
  {
    assert (steps + [step])[..|steps|] == steps;
    assert forall i :: 0 <= i < |steps| ==> steps[i] == (steps + [step])[i];
  }

  lemma CoveredBefore(actions: seq<Action>)
    requires actions != [] && Covered(Writes(actions))
    ensures Covered(Writes(actions[..|actions| - 1]))
  {
    var prefix, last := Writes(actions[..|actions| - 1]), actions[|actions| - 1];
    if last.Write? {
      CoveredPrefix(prefix, last.step);
    } else {
      assert prefix + [] == prefix;
    }
  }

  lemma {:induction false} StreamStaysInStep(afterSeq: nat, actions: seq<Action>)
    requires Covered(Writes(actions))
    ensures var s := Follow(afterSeq, actions); InStep(s.session.log, afterSeq, s.cursor, s.sent)
    decreases |actions|
  {
    if actions != [] {
      var prefix := actions[..|actions| - 1];
      CoveredBefore(actions);
      StreamStaysInStep(afterSeq, prefix);
      FollowsTheSession(afterSeq, prefix);
      LogIsNumbered(Writes(prefix));
      CollectedIsTheLog(Writes(prefix));
      ActKeepsStep(Follow(afterSeq, prefix), afterSeq, actions[|actions| - 1]);
    }
  }

  /**
   Exactly once and in order: in every interleaving of writes and polls, with every event mirrored,
   what the stream sent, followed by what its cursor has still to read, is the log after `afterSeq`.
   */
  lemma DeliveredOnceInOrder(afterSeq: nat, actions: seq<Action>)
    requires Covered(Writes(actions))
    ensures var s := Follow(afterSeq, actions);
            && Numbered(s.session.log)
            && After(s.session.log, afterSeq) == s.sent + After(s.session.log, s.cursor)
  {
    var s := Follow(afterSeq, actions);
    StreamStaysInStep(afterSeq, actions);
    FollowsTheSession(afterSeq, actions);
    LogIsNumbered(Writes(actions));
    InStepIsPrefix(s.session.log, afterSeq, s.cursor, s.sent);
  }

  lemma SliceSplit<T>(s: seq<T>, i: nat, j: nat)
    requires i <= j <= |s|
    ensures s[i..j] + s[j..] == s[i..]
  {
  }

  lemma SplitAfter(log: seq<Item>, rest: seq<Item>, later: seq<Item>, sent: seq<Item>, afterSeq: nat, cursor: nat)
    requires afterSeq <= cursor <= |log| && rest == log[afterSeq..] && later == log[cursor..]
    requires sent == log[afterSeq..cursor]
    ensures rest == sent + later
  {
    SliceSplit(log, afterSeq, cursor);
  }

  lemma InStepIsPrefix(log: seq<Item>, afterSeq: nat, cursor: int, sent: seq<Item>)
    requires Numbered(log) && InStep(log, afterSeq, cursor, sent)
    ensures After(log, afterSeq) == sent + After(log, cursor)
  {
    if afterSeq <= cursor <= |log| {
      AfterIsRest(log, afterSeq);
      AfterIsRest(log, cursor);
      SplitAfter(log, After(log, afterSeq), After(log, cursor), sent, afterSeq, cursor);
    } else {
      assert [] + After(log, afterSeq) == After(log, afterSeq);
    }
  }

  /** A poll has sent everything as of that moment exactly when what remained fitted one page. */
  lemma PollDrainsExactlyWhen(afterSeq: nat, actions: seq<Action>, limit: int)
    requires Covered(Writes(actions))
    ensures var before := Follow(afterSeq, actions);
            Act(before, Poll(limit)).sent == After(before.session.log, afterSeq)
            <==> |After(before.session.log, before.cursor)| <= PageSize(limit)
  {
    var before := Follow(afterSeq, actions);
    DeliveredOnceInOrder(afterSeq, actions);
    FollowsTheSession(afterSeq, actions);
    CollectedIsTheLog(Writes(actions));
    var all, rest := After(before.session.log, afterSeq), After(before.session.log, before.cursor);
    assert all == before.sent + rest;
  }

  // ---- Exactly when delivery holds ------------------------------------------------------------

  /** Readers see a gap-free list: the log, then the unmirrored events; sorting it changes nothing. */
  lemma CollectedIsNumbered(s: Session)
    requires Numbered(s.log) && |s.log| <= QUERY_LIMIT
    ensures Numbered(Collected(s)) && s.log <= Collected(s)
    ensures |Collected(s)| == |s.log| + |Unmirrored(s.log, s.legacy)|
  {
    NumberedLatest(s.log);
  }

  /** The poll sends stored events only: nothing is unmirrored, or none of it is reached, or all is behind. */
  predicate PollStaysOnLog(s: Stream, limit: int) {
    var stored, extra := |s.session.log|, |Unmirrored(s.session.log, s.session.legacy)|;
    extra == 0 || s.cursor >= stored + extra || stored - s.cursor >= PageSize(limit)
  }

  lemma PageLeavesStepExactlyWhen(
    log: seq<Item>, items: seq<Item>, afterSeq: nat, cursor: nat, sent: seq<Item>, limit: int)
    requires Numbered(items) && log <= items && InStep(log, afterSeq, cursor, sent)
    ensures var page := Page(items, cursor, limit);
            InStep(log, afterSeq, Max(cursor, LatestNumber(page)), sent + page)
            <==> |items| == |log| || cursor >= |items| || |log| - cursor >= PageSize(limit)
  {
    PageIsNext(items, cursor, limit);
    var page := Page(items, cursor, limit);
    if page == [] {
      CursorMoves(items, page, cursor);
      assert sent + page == sent;
    } else {
      CursorMoves(items, page, cursor);
      PageFills(items, cursor, limit);
      SentPage(log, items, afterSeq, cursor, sent, page);
    }
  }

  lemma SentPage(log: seq<Item>, items: seq<Item>, afterSeq: nat, cursor: nat, sent: seq<Item>, page: seq<Item>)
    requires log <= items && InStep(log, afterSeq, cursor, sent)
    requires page != [] && cursor + |page| <= |items| && page == items[cursor..cursor + |page|]
    ensures InStep(log, afterSeq, cursor + |page|, sent + page) <==> cursor + |page| <= |log|
  {
    if cursor + |page| <= |log| {
      assert page == log[cursor..cursor + |page|];
      StretchKeepsStep(log, afterSeq, cursor, sent, |page|);
    }
  }

  lemma StretchKeepsStep(log: seq<Item>, afterSeq: nat, cursor: nat, sent: seq<Item>, size: nat)
    requires InStep(log, afterSeq, cursor, sent) && cursor + size <= |log|
    ensures InStep(log, afterSeq, cursor + size, sent + log[cursor..cursor + size])
  {
    assert log[afterSeq..cursor] + log[cursor..cursor + size] == log[afterSeq..cursor + size];
  }

  lemma PageFills(items: seq<Item>, cursor: nat, limit: int)
    requires Numbered(items) && cursor < |items|
    ensures |Page(items, cursor, limit)| == Min(PageSize(limit), |items| - cursor)
  {
    AfterIsRest(items, cursor);
  }

  lemma PollKeepsStepExactlyWhen(s: Stream, afterSeq: nat, limit: int)
    requires Numbered(s.session.log) && |s.session.log| <= QUERY_LIMIT
    requires InStep(s.session.log, afterSeq, s.cursor, s.sent)
    ensures var after := Act(s, Poll(limit));
            InStep(after.session.log, afterSeq, after.cursor, after.sent) <==> PollStaysOnLog(s, limit)
  {
    CollectedIsNumbered(s.session);
    PageLeavesStepExactlyWhen(s.session.log, Collected(s.session), afterSeq, s.cursor, s.sent, limit);
  }

  /** What was sent, followed by what the cursor has still to read, is the log after `afterSeq`. */
  predicate Delivered(s: Stream, afterSeq: nat) {
    After(s.session.log, afterSeq) == s.sent + After(s.session.log, s.cursor)
  }

  lemma {:induction false} LatestOfConcat(a: seq<Item>, b: seq<Item>)
    ensures LatestNumber(a + b) == Max(LatestNumber(a), LatestNumber(b))
    decreases |b|
  {
    if b == [] {
      assert a + b == a;
    } else {
      assert (a + b)[..|a + b| - 1] == a + b[..|b| - 1];
      LatestOfConcat(a, b[..|b| - 1]);
    }
  }

  lemma {:induction false} CursorIsLatestSent(afterSeq: nat, actions: seq<Action>)
    ensures var s := Follow(afterSeq, actions); s.cursor == Max(afterSeq, LatestNumber(s.sent))
    decreases |actions|
  {
    if actions != [] {
      var before, last := Follow(afterSeq, actions[..|actions| - 1]), actions[|actions| - 1];
      CursorIsLatestSent(afterSeq, actions[..|actions| - 1]);
      if last.Poll? {
        LatestOfConcat(before.sent, Page(Collected(before.session), before.cursor, last.limit));
      }
    }
  }

  lemma SentIsStretch(log: seq<Item>, afterSeq: nat, cursor: nat, sent: seq<Item>)
    requires afterSeq <= cursor <= |log| && log[afterSeq..] == sent + log[cursor..]
    ensures sent == log[afterSeq..cursor]
  {
    assert |sent| == cursor - afterSeq;
    assert sent == (sent + log[cursor..])[..|sent|];
    assert log[afterSeq..][..|sent|] == log[afterSeq..cursor];
  }

  lemma RestIsNumberedBelow(log: seq<Item>, afterSeq: nat)
    requires Numbered(log) && afterSeq <= |log|
    ensures LatestNumber(log[afterSeq..]) <= |log|
  {
    var rest := log[afterSeq..];
    LatestIsGreatest(rest);
    assert forall i :: 0 <= i < |rest| ==> rest[i] == log[afterSeq + i];
  }

  lemma DeliveredIsInStep(s: Stream, afterSeq: nat)
    requires Numbered(s.session.log) && s.cursor == Max(afterSeq, LatestNumber(s.sent))
    ensures Delivered(s, afterSeq) <==> InStep(s.session.log, afterSeq, s.cursor, s.sent)
  {
    var log := s.session.log;
    if InStep(log, afterSeq, s.cursor, s.sent) {
      InStepIsPrefix(log, afterSeq, s.cursor, s.sent);
    } else if Delivered(s, afterSeq) {
      AfterIsRest(log, afterSeq);
      AfterIsRest(log, s.cursor);
      if s.cursor <= |log| {
        SentIsStretch(log, afterSeq, s.cursor, s.sent);
      } else {
        assert s.sent + [] == s.sent;
        if afterSeq <= |log| {
          RestIsNumberedBelow(log, afterSeq);
        }
      }
    }
  }

  /** At every moment of the run: now, and throughout what came before the last action. */
  predicate DeliveredThroughout(afterSeq: nat, actions: seq<Action>) {
    && Delivered(Follow(afterSeq, actions), afterSeq)
    && (actions != [] ==> DeliveredThroughout(afterSeq, actions[..|actions| - 1]))
  }

  predicate PollsStayOnLog(afterSeq: nat, actions: seq<Action>) {
    actions == [] ||
    (var prefix, last := actions[..|actions| - 1], actions[|actions| - 1];
     && PollsStayOnLog(afterSeq, prefix)
     && (last.Poll? ==> PollStaysOnLog(Follow(afterSeq, prefix), last.limit)))
  }

  lemma StreamIsNumbered(afterSeq: nat, actions: seq<Action>)
    ensures Numbered(Follow(afterSeq, actions).session.log)
  {
    FollowsTheSession(afterSeq, actions);
    LogIsNumbered(Writes(actions));
  }

  lemma ThroughoutUnfolds(afterSeq: nat, prefix: seq<Action>, last: Action)
    ensures DeliveredThroughout(afterSeq, prefix + [last])
            <==> Delivered(Follow(afterSeq, prefix + [last]), afterSeq) && DeliveredThroughout(afterSeq, prefix)
  {
    assert (prefix + [last])[..|prefix|] == prefix;
  }

  lemma PollsUnfold(afterSeq: nat, prefix: seq<Action>, last: Action)
    ensures PollsStayOnLog(afterSeq, prefix + [last])
            <==> PollsStayOnLog(afterSeq, prefix)
                 && (last.Poll? ==> PollStaysOnLog(Follow(afterSeq, prefix), last.limit))
  {
    assert (prefix + [last])[..|prefix|] == prefix;
  }

  lemma NowDelivered(afterSeq: nat, actions: seq<Action>)
    requires DeliveredThroughout(afterSeq, actions)
    ensures Delivered(Follow(afterSeq, actions), afterSeq)
  {
  }

  /**
   The exact condition, over every run within the query limit, mirrored or not: delivery is exactly
   once and in order at every moment exactly when no poll reaches an unmirrored event.
   */
  lemma {:induction false} DeliveredExactlyWhen(afterSeq: nat, actions: seq<Action>)
    requires |Follow(afterSeq, actions).session.log| <= QUERY_LIMIT
    ensures DeliveredThroughout(afterSeq, actions) <==> PollsStayOnLog(afterSeq, actions)
    decreases |actions|
  {
    if actions != [] {
      var prefix, last := actions[..|actions| - 1], actions[|actions| - 1];
      LogGrows(afterSeq, prefix, last);
      assert prefix + [last] == actions;
      DeliveredExactlyWhen(afterSeq, prefix);
      ThroughoutUnfolds(afterSeq, prefix, last);
      PollsUnfold(afterSeq, prefix, last);
      if DeliveredThroughout(afterSeq, prefix) {
        NowDelivered(afterSeq, prefix);
        OneMoreAction(afterSeq, prefix, last);
      }
    } else {
      assert Delivered(Follow(afterSeq, []), afterSeq);
    }
  }

  lemma LogGrows(afterSeq: nat, prefix: seq<Action>, last: Action)
    ensures |Follow(afterSeq, prefix).session.log| <= |Follow(afterSeq, prefix + [last]).session.log|
  {
    assert (prefix + [last])[..|prefix|] == prefix;
  }

  lemma OneMoreAction(afterSeq: nat, prefix: seq<Action>, last: Action)
    requires var before := Follow(afterSeq, prefix);
             && |before.session.log| <= QUERY_LIMIT && Delivered(before, afterSeq)
    ensures Delivered(Follow(afterSeq, prefix + [last]), afterSeq)
            <==> (last.Poll? ==> PollStaysOnLog(Follow(afterSeq, prefix), last.limit))
  {
    var before := Follow(afterSeq, prefix);
    assert (prefix + [last])[..|prefix|] == prefix;
    StreamIsNumbered(afterSeq, prefix);
    StreamIsNumbered(afterSeq, prefix + [last]);
    CursorIsLatestSent(afterSeq, prefix);
    CursorIsLatestSent(afterSeq, prefix + [last]);
    DeliveredIsInStep(before, afterSeq);
    DeliveredIsInStep(Follow(afterSeq, prefix + [last]), afterSeq);
    match last
    case Poll(limit) => PollKeepsStepExactlyWhen(before, afterSeq, limit);
    case Write(_) => ActKeepsStep(before, afterSeq, last);
  }

  // ---- Between the two transactions of one event -----------------------------------------------

  function Polls(s: Stream, limits: seq<int>): Stream {
    if limits == [] then s else Act(Polls(s, limits[..|limits| - 1]), Poll(limits[|limits| - 1]))
  }

  lemma {:induction false} PollsKeepStep(s: Stream, afterSeq: nat, limits: seq<int>)
    requires Numbered(Collected(s.session)) && InStep(Collected(s.session), afterSeq, s.cursor, s.sent)
    ensures var after := Polls(s, limits);
            after.session == s.session && InStep(Collected(s.session), afterSeq, after.cursor, after.sent)
    decreases |limits|
  {
    if limits != [] {
      var before := Polls(s, limits[..|limits| - 1]);
      PollsKeepStep(s, afterSeq, limits[..|limits| - 1]);
      PollKeepsStep(Collected(s.session), afterSeq, before.cursor, before.sent, limits[|limits| - 1]);
    }
  }

  lemma OnlyNewUnmirrored(log: seq<Item>, legacy: seq<string>, eventId: string)
    requires Unmirrored(log, legacy) == [] && !Holds(log, eventId)
    ensures Unmirrored(log, legacy + [eventId]) == [eventId]
  {
    UnmirroredAppend(log, legacy, eventId);
    assert [] + [eventId] == [eventId];
  }

  /** The number the mirror assigns. */
  lemma AssignedNumber(log: seq<Item>, eventId: string)
    requires Numbered(log) && !Holds(log, eventId)
    ensures var view := log + [Item(|log| + 1, eventId)]; Numbered(view) && Added(log, eventId, None) == view
  {
    NumberedLatest(log);
  }

  lemma ProvisionalNumber(s: Session, eventId: string)
    requires Numbered(s.log) && |s.log| <= QUERY_LIMIT && Unmirrored(s.log, s.legacy) == [eventId]
    ensures Collected(s) == s.log + [Item(|s.log| + 1, eventId)]
  {
    NumberedLatest(s.log);
    assert NumberFrom(|s.log|, [eventId]) == [Item(|s.log| + 1, eventId)];
  }

  /**
   A task event is stored first and mirrored in a second transaction. Polls that fall in between send
   it under its provisional number; if the mirror is the next event stored, that is the number it
   gets, and delivery is whole again.
   */
  lemma InFlightEventIsDelivered(s: Stream, afterSeq: nat, eventId: string, limits: seq<int>)
    requires Numbered(s.session.log) && |s.session.log| < QUERY_LIMIT
    requires InStep(s.session.log, afterSeq, s.cursor, s.sent)
    requires Unmirrored(s.session.log, s.session.legacy) == [] && !Holds(s.session.log, eventId)
    ensures var stored := Act(s, Write(TaskEvent(eventId, false)));
            var mirrored := Act(Polls(stored, limits), Write(DirectEvent(eventId)));
            && mirrored.session.log == s.session.log + [Item(|s.session.log| + 1, eventId)]
            && InStep(mirrored.session.log, afterSeq, mirrored.cursor, mirrored.sent)
  {
    var view := s.session.log + [Item(|s.session.log| + 1, eventId)];
    AssignedNumber(s.session.log, eventId);
    InFlightThenMirrored(s, afterSeq, eventId, limits, s.session.log, view);
  }

  /** A task event stored and not yet mirrored: the log is as it was, and readers see one entry more. */
  lemma InFlight(s: Stream, afterSeq: nat, eventId: string, view: seq<Item>)
    requires Numbered(s.session.log) && |s.session.log| < QUERY_LIMIT
    requires InStep(s.session.log, afterSeq, s.cursor, s.sent) && Unmirrored(s.session.log, s.session.legacy) == []
    requires !Holds(s.session.log, eventId) && view == s.session.log + [Item(|s.session.log| + 1, eventId)]
    ensures var stored := Act(s, Write(TaskEvent(eventId, false)));
            && stored.session.log == s.session.log
            && Numbered(view) && Collected(stored.session) == view
            && InStep(view, afterSeq, stored.cursor, stored.sent)
  {
    var stored := Act(s, Write(TaskEvent(eventId, false)));
    OnlyNewUnmirrored(s.session.log, s.session.legacy, eventId);
    assert stored.session == Session(s.session.log, s.session.legacy + [eventId]);
    WindowView(stored.session, eventId, view);
    WriteKeepsStep(s.session.log, [Item(|s.session.log| + 1, eventId)], afterSeq, s.cursor, s.sent);
  }

  /** What readers see while the mirror is outstanding is the log as the mirror will leave it. */
  lemma WindowView(s: Session, eventId: string, view: seq<Item>)
    requires Numbered(s.log) && |s.log| < QUERY_LIMIT
    requires Unmirrored(s.log, s.legacy) == [eventId] && !Holds(s.log, eventId)
    requires view == s.log + [Item(|s.log| + 1, eventId)]
    ensures Numbered(view) && Collected(s) == view
    ensures Added(s.log, eventId, None) == view
  {
    ProvisionalNumber(s, eventId);
    AssignedNumber(s.log, eventId);
  }

  lemma WindowCloses(s: Stream, afterSeq: nat, eventId: string, limits: seq<int>, log: seq<Item>, view: seq<Item>)
    requires s.session.log == log && Added(log, eventId, None) == view
    requires Numbered(view) && Collected(s.session) == view && InStep(view, afterSeq, s.cursor, s.sent)
    ensures var mirrored := Act(Polls(s, limits), Write(DirectEvent(eventId)));
            mirrored.session.log == view && InStep(view, afterSeq, mirrored.cursor, mirrored.sent)
  {
    PollsSeeView(s, view, afterSeq, limits);
    MirrorStores(Polls(s, limits), view, eventId);
  }

  lemma InFlightThenMirrored(s: Stream, afterSeq: nat, eventId: string, limits: seq<int>, log: seq<Item>, view: seq<Item>)
    requires s.session.log == log && Numbered(log) && |log| < QUERY_LIMIT && !Holds(log, eventId)
    requires InStep(log, afterSeq, s.cursor, s.sent) && Unmirrored(log, s.session.legacy) == []
    requires view == log + [Item(|log| + 1, eventId)] && Added(log, eventId, None) == view
    ensures var mirrored := Act(Polls(Act(s, Write(TaskEvent(eventId, false))), limits), Write(DirectEvent(eventId)));
            mirrored.session.log == view && InStep(view, afterSeq, mirrored.cursor, mirrored.sent)
  {
    InFlight(s, afterSeq, eventId, view);
    WindowCloses(Act(s, Write(TaskEvent(eventId, false))), afterSeq, eventId, limits, log, view);
  }

  /** The cursor of the polls, when they see `view`: on the log, past it, or where the reader began. */
  lemma SentReaches(log: seq<Item>, view: seq<Item>, final: seq<Item>, afterSeq: nat, cursor: nat, sent: seq<Item>)
    requires |view| == |log| + 1 && |final| == |log| + 2 && log == view[..|log|] == final[..|log|]
    requires view[|log|] != final[|log|] && InStep(view, afterSeq, cursor, sent)
    ensures InStep(final, afterSeq, cursor, sent) <==> !(afterSeq <= |log| < cursor)
  {
    if afterSeq <= cursor <= |log| {
      assert view[afterSeq..cursor] == log[afterSeq..cursor] == final[afterSeq..cursor];
    } else if afterSeq <= |log| < cursor {
      assert cursor == |view| && sent == view[afterSeq..cursor];
      assert sent[|log| - afterSeq] == view[|log|];
      assert final[afterSeq..cursor][|log| - afterSeq] == final[|log|];
    } else if cursor <= |final| {
      assert cursor == afterSeq;
      assert sent == [] && final[afterSeq..cursor] == [];
    }
  }

  /** Another event, then the mirror: the numbers they get. */
  lemma OvertakenNumbers(log: seq<Item>, eventId: string, other: string)
    requires Numbered(log) && !Holds(log, eventId) && !Holds(log, other) && other != eventId
    ensures Added(Added(log, other, None), eventId, None)
            == log + [Item(|log| + 1, other), Item(|log| + 2, eventId)]
  {
    var first := log + [Item(|log| + 1, other)];
    AssignedNumber(log, other);
    assert !Holds(first, eventId);
    AssignedNumber(first, eventId);
    assert first + [Item(|log| + 2, eventId)] == log + [Item(|log| + 1, other), Item(|log| + 2, eventId)];
  }

  /** Two events stored one after the other. */
  function StoreBoth(s: Stream, first: string, second: string): Stream {
    Act(Act(s, Write(DirectEvent(first))), Write(DirectEvent(second)))
  }

  lemma OvertakenView(s: Stream, afterSeq: nat, eventId: string, other: string, limits: seq<int>,
                      log: seq<Item>, view: seq<Item>, final: seq<Item>)
    requires s.session.log == log && Numbered(view) && Collected(s.session) == view
    requires InStep(view, afterSeq, s.cursor, s.sent)
    requires |view| == |log| + 1 && |final| == |log| + 2 && log == view[..|log|] == final[..|log|]
    requires view[|log|] != final[|log|] && Added(Added(log, other, None), eventId, None) == final
    ensures var polled := Polls(s, limits);
            var done := StoreBoth(polled, other, eventId);
            && done.session.log == final
            && (InStep(final, afterSeq, done.cursor, done.sent) <==> !(afterSeq <= |log| < polled.cursor))
  {
    var polled := Polls(s, limits);
    PollsSeeView(s, view, afterSeq, limits);
    SentReaches(log, view, final, afterSeq, polled.cursor, polled.sent);
  }

  lemma SameStart(log: seq<Item>, view: seq<Item>, final: seq<Item>, a: Item, b: Item, c: Item)
    requires view == log + [a] && final == log + [b, c] && a != b
    ensures |view| == |log| + 1 && |final| == |log| + 2 && log == view[..|log|] == final[..|log|]
    ensures view[|log|] != final[|log|]
  {
  }

  /**
   If another event is stored before the mirror, no failure being needed, delivery is whole in the end
   exactly when no poll in between had reached the event in flight.
   */
  lemma OvertakenEventIsDeliveredExactlyWhen(s: Stream, afterSeq: nat, eventId: string, other: string, limits: seq<int>)
    requires Numbered(s.session.log) && |s.session.log| < QUERY_LIMIT
    requires InStep(s.session.log, afterSeq, s.cursor, s.sent) && Unmirrored(s.session.log, s.session.legacy) == []
    requires !Holds(s.session.log, eventId) && !Holds(s.session.log, other) && other != eventId
    ensures var polled := Polls(Act(s, Write(TaskEvent(eventId, false))), limits);
            var done := StoreBoth(polled, other, eventId);
            InStep(done.session.log, afterSeq, done.cursor, done.sent)
            <==> !(afterSeq <= |s.session.log| < polled.cursor)
  {
    var log := s.session.log;
    var view, final := log + [Item(|log| + 1, eventId)], log + [Item(|log| + 1, other), Item(|log| + 2, eventId)];
    OvertakenNumbers(log, eventId, other);
    SameStart(log, view, final, Item(|log| + 1, eventId), Item(|log| + 1, other), Item(|log| + 2, eventId));
    InFlight(s, afterSeq, eventId, view);
    OvertakenView(Act(s, Write(TaskEvent(eventId, false))), afterSeq, eventId, other, limits, log, view, final);
  }

  lemma PollsSeeView(s: Stream, view: seq<Item>, afterSeq: nat, limits: seq<int>)
    requires Collected(s.session) == view && Numbered(view) && InStep(view, afterSeq, s.cursor, s.sent)
    ensures var after := Polls(s, limits);
            after.session == s.session && InStep(view, afterSeq, after.cursor, after.sent)
  {
    PollsKeepStep(s, afterSeq, limits);
  }

  lemma MirrorStores(s: Stream, view: seq<Item>, eventId: string)
    requires Added(s.session.log, eventId, None) == view
    ensures var after := Act(s, Write(DirectEvent(eventId)));
            after.session.log == view && after.cursor == s.cursor && after.sent == s.sent
  {
  }

  /**
   With a task event left unmirrored delivery breaks: its provisional number passes to the next
   stored event, which is never sent, while the unmirrored one is sent twice.
   */
  lemma UnmirroredEventBreaksDelivery(a: string, b: string, c: string)
    requires a != b && a != c && b != c
    ensures var written := Act(Act(Follow(0, []), Write(TaskEvent(a, true))), Write(TaskEvent(b, false)));
            var read := Act(Act(Act(written, Poll(10)), Write(TaskEvent(c, true))), Poll(10));
            && read.session.log == [Item(1, a), Item(2, c)]
            && read.sent == [Item(1, a), Item(2, b), Item(3, b)]
  {
    var log1, log2 := [Item(1, a)], [Item(1, a), Item(2, c)];
    StoredOfTheExample(a, b, c);
    var start := Stream(Session(log1, [a, b]), 0, []);
    assert Act(Act(Follow(0, []), Write(TaskEvent(a, true))), Write(TaskEvent(b, false))) == start;
    FirstPoll(start, a, b);
    var read := Stream(Session(log1, [a, b]), 2, [Item(1, a), Item(2, b)]);
    var next := Stream(Session(log2, [a, b, c]), 2, [Item(1, a), Item(2, b)]);
    assert Act(read, Write(TaskEvent(c, true))) == next;
    SecondPoll(next, a, b, c);
  }

  lemma StoredOfTheExample(a: string, b: string, c: string)
    requires a != b && a != c && b != c
    ensures Added([], a, None) == [Item(1, a)]
    ensures Added([Item(1, a)], c, None) == [Item(1, a), Item(2, c)]
  {
    NumberedLatest([Item(1, a)]);
  }

  lemma UnmirroredAppend(log: seq<Item>, legacy: seq<string>, eventId: string)
    ensures Unmirrored(log, legacy + [eventId])
            == Unmirrored(log, legacy) + (if Holds(log, eventId) then [] else [eventId])
  {
    assert (legacy + [eventId])[..|legacy|] == legacy;
  }

  lemma OneUnmirrored(log: seq<Item>, a: string, b: string)
    requires Holds(log, a) && !Holds(log, b)
    ensures Unmirrored(log, [a, b]) == [b]
  {
    UnmirroredAppend(log, [], a);
    UnmirroredAppend(log, [a], b);
    assert [] + [a] == [a] && [a] + [b] == [a, b];
  }

  lemma FirstPoll(s: Stream, a: string, b: string)
    requires a != b && s == Stream(Session([Item(1, a)], [a, b]), 0, [])
    ensures Act(s, Poll(10)) == Stream(s.session, 2, [Item(1, a), Item(2, b)])
  {
    var log := s.session.log;
    assert log[0].eventId == a;
    OneUnmirrored(log, a, b);
    ProvisionalNumber(s.session, b);
    assert log + [Item(2, b)] == [Item(1, a), Item(2, b)];
    PollNumbered(s, [Item(1, a), Item(2, b)], 0);
  }

  lemma SecondPoll(s: Stream, a: string, b: string, c: string)
    requires a != b && a != c && b != c && s.cursor == 2
    requires s.session == Session([Item(1, a), Item(2, c)], [a, b, c])
    ensures Act(s, Poll(10)) == Stream(s.session, 3, s.sent + [Item(3, b)])
  {
    var log := s.session.log;
    assert log[0].eventId == a && log[1].eventId == c;
    OneUnmirrored(log, a, b);
    UnmirroredAppend(log, [a, b], c);
    assert [a, b] + [c] == [a, b, c] && [b] + [] == [b];
    ProvisionalNumber(s.session, b);
    PollNumbered(s, [Item(1, a), Item(2, c), Item(3, b)], 2);
  }

  lemma PollNumbered(s: Stream, items: seq<Item>, cursor: nat)
    requires Collected(s.session) == items && Numbered(items) && s.cursor == cursor < |items| <= 10
    ensures Act(s, Poll(10)) == Stream(s.session, |items|, s.sent + items[cursor..])
  {
    PageIsNext(items, cursor, 10);
    AfterIsRest(items, cursor);
    assert Page(items, cursor, 10) == items[cursor..];
    CursorMoves(items, Page(items, cursor, 10), cursor);
  }

  // ---- The store and the readers --------------------------------------------------------------

  datatype AddCall = AddCall(sessionId: string, eventId: string, supplied: Option<int>)

  function SessionLog(events: seq<RunEvent>, sessionId: string): seq<Item> {
    if events == [] then []
    else SessionLog(events[..|events| - 1], sessionId)
         + (if events[|events| - 1].sessionId == sessionId then [events[|events| - 1].item] else [])
  }

  predicate Stored(events: seq<RunEvent>, eventId: string) {
    exists i :: 0 <= i < |events| && events[i].item.eventId == eventId
  }

  /** The table after one call: an id that any session holds is not stored again. */
  function AfterAdd(events: seq<RunEvent>, sessions: set<string>, call: AddCall): seq<RunEvent> {
    if call.sessionId !in sessions || Stored(events, call.eventId) then events
    else
      var number := NumberFor(SessionLog(events, call.sessionId), call.supplied);
      events + [RunEvent(call.sessionId, Item(number, call.eventId))]
  }

  function AfterCalls(sessions: set<string>, calls: seq<AddCall>): seq<RunEvent> {
    if calls == [] then [] else AfterAdd(AfterCalls(sessions, calls[..|calls| - 1]), sessions, calls[|calls| - 1])
  }

  lemma AddKeepsSession(events: seq<RunEvent>, sessions: set<string>, call: AddCall, sessionId: string)
    requires call.supplied == None
    requires Numbered(SessionLog(events, sessionId)) && Unique(SessionLog(events, sessionId))
    ensures var after := AfterAdd(events, sessions, call);
            Numbered(SessionLog(after, sessionId)) && Unique(SessionLog(after, sessionId))
  {
    var log, after := SessionLog(events, sessionId), AfterAdd(events, sessions, call);
    if after != events {
      assert after[..|after| - 1] == events;
      if call.sessionId == sessionId {
        NewToSession(events, sessionId, call.eventId);
        AddKeepsNumbers(log, call.eventId);
        assert SessionLog(after, sessionId) == Added(log, call.eventId, None);
      } else {
        assert SessionLog(after, sessionId) == log + [] == log;
      }
    }
  }

  /**
   In every run of calls, over any sessions and with ids shared between them, each session's log is
   numbered from 1 without gaps and holds no id twice.
   */
  lemma {:induction false} EverySessionIsNumbered(sessions: set<string>, calls: seq<AddCall>, sessionId: string)
    requires forall i :: 0 <= i < |calls| ==> calls[i].supplied == None
    ensures var log := SessionLog(AfterCalls(sessions, calls), sessionId); Numbered(log) && Unique(log)
    decreases |calls|
  {
    if calls != [] {
      var init, last := calls[..|calls| - 1], calls[|calls| - 1];
      EverySessionIsNumbered(sessions, init, sessionId);
      AddKeepsSession(AfterCalls(sessions, init), sessions, last, sessionId);
    }
  }

  class SessionStore {
    var sessions: set<string>
    var events: seq<RunEvent>

    function Log(sessionId: string): seq<Item>
      reads this
    {
      SessionLog(events, sessionId)
    }

    /** An event id is stored once over all sessions; `None` where the session does not exist. */
    method AddRunEvent(sessionId: string, eventId: string, supplied: Option<int>) returns (stored: Option<Item>)
      modifies this`events
      ensures events == AfterAdd(old(events), sessions, AddCall(sessionId, eventId, supplied))
      ensures sessionId !in sessions ==> stored == None && events == old(events)
      ensures sessionId in sessions ==> stored.Some? && stored.value.eventId == eventId
      ensures sessionId in sessions && (exists i :: 0 <= i < |old(events)| && old(events)[i].item.eventId == eventId) ==>
        events == old(events) && exists i :: 0 <= i < |events| && events[i].item == stored.value
      ensures sessionId in sessions && (forall i :: 0 <= i < |old(events)| ==> old(events)[i].item.eventId != eventId) ==>
        && Log(sessionId) == Added(old(Log(sessionId)), eventId, supplied) == old(Log(sessionId)) + [stored.value]
        && forall other :: other != sessionId ==> Log(other) == old(Log(other))
    {
      if sessionId !in sessions {
        return None;
      }
      for i := 0 to |events|
        invariant forall j :: 0 <= j < i ==> events[j].item.eventId != eventId
      {
        if events[i].item.eventId == eventId {
          return Some(events[i].item);
        }
      }
      NewToSession(events, sessionId, eventId);
      var item := Item(NumberFor(SessionLog(events, sessionId), supplied), eventId);
      events := events + [RunEvent(sessionId, item)];
      assert events[..|events| - 1] == old(events);
      stored := Some(item);
    }
  }

  lemma {:induction false} NewToSession(events: seq<RunEvent>, sessionId: string, eventId: string)
    requires forall i :: 0 <= i < |events| ==> events[i].item.eventId != eventId
    ensures !Holds(SessionLog(events, sessionId), eventId)
    decreases |events|
  {
    if events != [] {
      NewToSession(events[..|events| - 1], sessionId, eventId);
    }
  }

  /** The items whose events pass the filters. */
  function Matching(items: seq<Item>, keep: string -> bool): seq<Item> {
    if items == [] then []
    else
      var last := items[|items| - 1];
      Matching(items[..|items| - 1], keep) + (if keep(last.eventId) then [last] else [])
  }

  function Wanted(items: seq<Item>, keep: string -> bool, afterSeq: Option<int>): seq<Item> {
    var matching := Matching(items, keep);
    if afterSeq.Some? then After(matching, afterSeq.value) else matching
  }

  function Slice(items: seq<Item>, limit: int, offset: int): seq<Item> {
    var start := Min(Max(offset, 0), |items|);
    items[start..Min(start + PageSize(limit), |items|)]
  }

  /** A page at an offset: the items from there on, in order, as many as the limit allows. */
  lemma SliceAt(items: seq<Item>, limit: int, offset: int)
    requires 1 <= limit <= 10000
    ensures var start := if offset < 0 then 0 else offset;
            var page := Slice(items, limit, offset);
            && |page| == (if start >= |items| then 0 else if start + limit <= |items| then limit else |items| - start)
            && forall i :: 0 <= i < |page| ==> page[i] == items[start + i]
  {
  }

  predicate Every(eventId: string) { true }

  /** The stream asks without filters and without an offset. */
  lemma {:induction false} EveryItemMatches(items: seq<Item>)
    ensures Matching(items, Every) == items
    decreases |items|
  {
    if items != [] {
      var init, last := items[..|items| - 1], items[|items| - 1];
      EveryItemMatches(init);
      assert Matching(items, Every) == Matching(init, Every) + [last];
      assert init + [last] == items;
    }
  }

  lemma StreamPage(items: seq<Item>, cursor: int, limit: int)
    ensures Slice(Wanted(items, Every, Some(cursor)), limit, 0) == Page(items, cursor, limit)
  {
    EveryItemMatches(items);
  }

  /**
   `collect_session_events`: `keep` stands for the type and source filters. The sort by number that
   follows the merge leaves a gap-free list as it is (`CollectedIsNumbered`).
   */
  method CollectSessionEvents(s: Session, keep: string -> bool, afterSeq: Option<int>, limit: int, offset: int)
    returns (page: seq<Item>, more: bool)
    ensures page == Slice(Wanted(Collected(s), keep, afterSeq), limit, offset)
    ensures more <==> offset + |page| < |Wanted(Collected(s), keep, afterSeq)|
  {
    var items := NumberUnmirrored(Visible(s.log), s.legacy);
    var wanted := MatchingEntries(items, keep);
    if afterSeq.Some? {
      wanted := EntriesAfter(wanted, afterSeq.value);
    }
    page := Slice(wanted, limit, offset);
    more := offset + |page| < |wanted|;
  }

  method MatchingEntries(items: seq<Item>, keep: string -> bool) returns (matching: seq<Item>)
    ensures matching == Matching(items, keep)
  {
    matching := [];
    for i := 0 to |items|
      invariant matching == Matching(items[..i], keep)
    {
      assert items[..i + 1][..i] == items[..i];
      if keep(items[i].eventId) {
        matching := matching + [items[i]];
      }
    }
    assert items[..|items|] == items;
  }

  method EntriesAfter(items: seq<Item>, cursor: int) returns (wanted: seq<Item>)
    ensures wanted == After(items, cursor)
  {
    wanted := [];
    for i := 0 to |items|
      invariant wanted == After(items[..i], cursor)
    {
      assert items[..i + 1][..i] == items[..i];
      if items[i].number > cursor {
        wanted := wanted + [items[i]];
      }
    }
    assert items[..|items|] == items;
  }

  /** Legacy events the log does not hold are numbered on from its latest number. */
  method NumberUnmirrored(stored: seq<Item>, legacy: seq<string>) returns (items: seq<Item>)
    ensures items == stored + NumberFrom(LatestNumber(stored), Unmirrored(stored, legacy))
  {
    var latest := LatestNumber(stored);
    var nextSeq := latest;
    items := stored;
    StartsMerged(stored, latest, legacy);
    for i := 0 to |legacy|
      invariant Merged(stored, latest, legacy[..i], nextSeq, items)
    {
      MergeNext(stored, latest, legacy, i, nextSeq, items);
      if Holds(stored, legacy[i]) {
        continue;
      }
      nextSeq := nextSeq + 1;
      items := items + [Item(nextSeq, legacy[i])];
    }
    assert legacy[..|legacy|] == legacy;
  }

  /** The list and its latest number when these legacy events have been merged. */
  predicate Merged(stored: seq<Item>, latest: int, legacy: seq<string>, nextSeq: int, items: seq<Item>) {
    && nextSeq == latest + |Unmirrored(stored, legacy)|
    && items == stored + NumberFrom(latest, Unmirrored(stored, legacy))
  }

  lemma StartsMerged(stored: seq<Item>, latest: int, legacy: seq<string>)
    ensures Merged(stored, latest, legacy[..0], latest, stored)
  {
    assert stored + [] == stored;
  }

  lemma MergeOne(stored: seq<Item>, latest: int, merged: seq<string>, eventId: string, nextSeq: int, items: seq<Item>)
    requires nextSeq == latest + |merged| && items == stored + NumberFrom(latest, merged)
    ensures items + [Item(nextSeq + 1, eventId)] == stored + NumberFrom(latest, merged + [eventId])
  {
    NumberOneMore(latest, merged, eventId);
    ConcatAssociates(stored, NumberFrom(latest, merged), [Item(nextSeq + 1, eventId)]);
  }

  lemma ConcatAssociates<T>(a: seq<T>, b: seq<T>, c: seq<T>)
    ensures (a + b) + c == a + (b + c)
  {
  }

  lemma MergeNext(stored: seq<Item>, latest: int, legacy: seq<string>, i: nat, nextSeq: int, items: seq<Item>)
    requires i < |legacy| && Merged(stored, latest, legacy[..i], nextSeq, items)
    ensures if Holds(stored, legacy[i]) then Merged(stored, latest, legacy[..i + 1], nextSeq, items)
            else Merged(stored, latest, legacy[..i + 1], nextSeq + 1, items + [Item(nextSeq + 1, legacy[i])])
  {
    UnmirroredNext(stored, legacy, i);
    if !Holds(stored, legacy[i]) {
      MergeOne(stored, latest, Unmirrored(stored, legacy[..i]), legacy[i], nextSeq, items);
    }
  }

  lemma UnmirroredNext(log: seq<Item>, legacy: seq<string>, i: nat)
    requires i < |legacy|
    ensures Unmirrored(log, legacy[..i + 1])
            == if Holds(log, legacy[i]) then Unmirrored(log, legacy[..i]) else Unmirrored(log, legacy[..i]) + [legacy[i]]
  {
    UnmirroredAppend(log, legacy[..i], legacy[i]);
    assert legacy[..i] + [legacy[i]] == legacy[..i + 1];
  }

  lemma NumberOneMore(n: int, eventIds: seq<string>, eventId: string)
    ensures NumberFrom(n, eventIds + [eventId]) == NumberFrom(n, eventIds) + [Item(n + |eventIds| + 1, eventId)]
  {
  }

  method MoveCursor(cursor: nat, page: seq<Item>) returns (nextSeq: nat)
    ensures nextSeq == Max(cursor, LatestNumber(page))
  {
    nextSeq := cursor;
    for i := 0 to |page|
      invariant nextSeq == Max(cursor, LatestNumber(page[..i]))
    {
      assert page[..i + 1][..i] == page[..i];
      nextSeq := Max(nextSeq, page[i].number);
    }
    assert page[..|page|] == page;
  }

  /** One turn of the stream: send the page, moving the cursor event by event. */
  method SendPage(s: Stream, limit: int) returns (next: Stream)
    ensures next == Act(s, Poll(limit))
  {
    var page, _ := CollectSessionEvents(s.session, Every, Some(s.cursor), limit, 0);
    StreamPage(Collected(s.session), s.cursor, limit);
    var nextSeq := MoveCursor(s.cursor, page);
    next := Stream(s.session, nextSeq, s.sent + page);
  }
}
