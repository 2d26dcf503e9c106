/**
 History compression around an arbitrary summariser and an arbitrary text cost.

 A level keeps the system messages and the longest recent tail that fits, replaces the rest by
 one summary (itself a system message) and recurses while the result is over budget.
 */
module Compressor {
  datatype Role = System | Other(name: string)
  datatype Message = Message(role: Role, content: string)

  /**
   The model behind the call: token cost of a text, and the summary it gives of some messages at
   the n-th request. Nothing is assumed of either.
   */
  datatype Provider = Provider(cost: string -> nat, summarise: (nat, seq<Message>) -> string)

  datatype Budget = Budget(target: int, reserve: int)

  const MESSAGE_OVERHEAD := 4
  const SUMMARY_PREFIX := "\U{5BF9}\U{8BDD}\U{5386}\U{53F2}\U{6458}\U{8981}\U{FF1A}\n"

  function Tokens(p: Provider, messages: seq<Message>): nat {
    if messages == [] then 0
    else Tokens(p, messages[..|messages| - 1]) + p.cost(messages[|messages| - 1].content) + MESSAGE_OVERHEAD
  }

  predicate Fits(p: Provider, messages: seq<Message>, b: Budget) {
    Tokens(p, messages) + b.reserve <= b.target
  }

  function Systems(messages: seq<Message>): (kept: seq<Message>) {
    if messages == [] then []
    else Systems(messages[..|messages| - 1])
         + (if messages[|messages| - 1].role.System? then [messages[|messages| - 1]] else [])
  }

  function Others(messages: seq<Message>): (kept: seq<Message>)
    ensures |kept| + |Systems(messages)| == |messages|
  {
    if messages == [] then []
    else Others(messages[..|messages| - 1])
         + (if messages[|messages| - 1].role.System? then [] else [messages[|messages| - 1]])
  }

  /** Where the kept tail starts, walking back from `k`. */
  function TailStart(p: Provider, systems: seq<Message>, others: seq<Message>, k: nat, b: Budget): (start: nat)
    requires k <= |others|
    ensures start <= k
  {
    if k > 0 && Fits(p, systems + others[k - 1..], b) then TailStart(p, systems, others, k - 1, b) else k
  }

  function Summary(p: Provider, level: nat, head: seq<Message>): Message {
    Message(System, SUMMARY_PREFIX + p.summarise(level, head))
  }

  /** `Stuck`: the recursion repeats its own input for ever. */
  datatype Outcome = Done | Stuck

  /** How a call ends, the messages it ends with, and the heads it summarised on the way. */
  datatype Result = Result(outcome: Outcome, messages: seq<Message>, heads: seq<seq<Message>>)

  function Compress(p: Provider, level: nat, messages: seq<Message>, b: Budget): Result
    decreases |Others(messages)|
  {
    if messages == [] || Fits(p, messages, b) then Result(Done, messages, [])
    else
      var systems, others := Systems(messages), Others(messages);
      if others == [] then Result(if |messages| > 1 then Stuck else Done, messages, [])
      else
        var head, next := Head(p, messages, b), NextLevel(p, level, messages, b);
        if Fits(p, next, b) || |next| <= 1 then Result(Done, next, [head])
        else
          LevelShrinks(p, level, messages, b);
          var rest := Compress(p, level + 1, next, b);
          rest.(heads := [head] + rest.heads)
  }

  function Head(p: Provider, messages: seq<Message>, b: Budget): seq<Message> {
    Others(messages)[..TailStart(p, Systems(messages), Others(messages), |Others(messages)|, b)]
  }

  function Tail(p: Provider, messages: seq<Message>, b: Budget): seq<Message> {
    Others(messages)[TailStart(p, Systems(messages), Others(messages), |Others(messages)|, b)..]
  }

  function NextLevel(p: Provider, level: nat, messages: seq<Message>, b: Budget): seq<Message> {
    Systems(messages) + [Summary(p, level, Head(p, messages, b))] + Tail(p, messages, b)
  }

  // ---- Cost is additive ------------------------------------------------------------------

  lemma {:induction false} TokensConcat(p: Provider, a: seq<Message>, b: seq<Message>)
    ensures Tokens(p, a + b) == Tokens(p, a) + Tokens(p, b)
    decreases |b|
  {
    if b == [] {
      assert a + b == a;
    } else {
      assert (a + b)[..|a + b| - 1] == a + b[..|b| - 1];
      TokensConcat(p, a, b[..|b| - 1]);
    }
  }

  /** With `TokensConcat`: the cost is that of the texts and four for each message. */
  lemma OneMessageCosts(p: Provider, message: Message)
    ensures Tokens(p, [message]) == p.cost(message.content) + 4
  {
    TokensLast(p, [], message);
    assert [] + [message] == [message];
  }

  lemma TokensLast(p: Provider, init: seq<Message>, last: Message)
    ensures Tokens(p, init + [last]) == Tokens(p, init) + p.cost(last.content) + MESSAGE_OVERHEAD
  {
    assert (init + [last])[..|init|] == init;
  }

  lemma LastSystem(init: seq<Message>, last: Message)
    requires last.role.System?
    ensures Systems(init + [last]) == Systems(init) + [last] && Others(init + [last]) == Others(init)
  {
    assert (init + [last])[..|init|] == init;
  }

  lemma LastOther(init: seq<Message>, last: Message)
    requires !last.role.System?
    ensures Systems(init + [last]) == Systems(init) && Others(init + [last]) == Others(init) + [last]
  {
    assert (init + [last])[..|init|] == init;
  }

  predicate SplitIsFree(p: Provider, messages: seq<Message>) {
    Tokens(p, Systems(messages)) + Tokens(p, Others(messages)) == Tokens(p, messages)
  }

  lemma OneMoreIsFree(p: Provider, init: seq<Message>, last: Message)
    requires SplitIsFree(p, init)
    ensures SplitIsFree(p, init + [last])
  {
    TokensLast(p, init, last);
    if last.role.System? {
      LastSystem(init, last);
      TokensLast(p, Systems(init), last);
    } else {
      LastOther(init, last);
      TokensLast(p, Others(init), last);
    }
  }

  /** Splitting by role costs nothing. */
  lemma {:induction false} TokensSplit(p: Provider, messages: seq<Message>)
    ensures SplitIsFree(p, messages)
    decreases |messages|
  {
    if messages != [] {
      var init, last := messages[..|messages| - 1], messages[|messages| - 1];
      TokensSplit(p, init);
      OneMoreIsFree(p, init, last);
      assert init + [last] == messages;
    }
  }

  function Reverse(messages: seq<Message>): (r: seq<Message>) {
    if messages == [] then [] else [messages[|messages| - 1]] + Reverse(messages[..|messages| - 1])
  }

  lemma {:induction false} TokensReverse(p: Provider, messages: seq<Message>)
    ensures Tokens(p, Reverse(messages)) == Tokens(p, messages)
    decreases |messages|
  {
    if messages != [] {
      TokensReverse(p, messages[..|messages| - 1]);
      TokensConcat(p, [messages[|messages| - 1]], Reverse(messages[..|messages| - 1]));
    }
  }

  // ---- The kept tail -----------------------------------------------------------------------

  lemma LongerSuffixCostsMore(p: Provider, others: seq<Message>, j: nat, k: nat)
    requires j <= k <= |others|
    ensures Tokens(p, others[j..]) >= Tokens(p, others[k..])
  {
    TokensConcat(p, others[j..k], others[k..]);
    assert others[j..k] + others[k..] == others[j..];
  }

  lemma LongerTailCostsMore(p: Provider, systems: seq<Message>, others: seq<Message>, j: nat, k: nat)
    requires j <= k <= |others|
    ensures Tokens(p, systems + others[j..]) >= Tokens(p, systems + others[k..])
  {
    var long, short := others[j..], others[k..];
    LongerSuffixCostsMore(p, others, j, k);
    TokensConcat(p, systems, long);
    TokensConcat(p, systems, short);
  }

  lemma {:induction false} TailExtends(
    p: Provider, systems: seq<Message>, others: seq<Message>, k: nat, b: Budget, j: nat)
    requires k <= |others|
    requires k == |others| || Fits(p, systems + others[k..], b)
    requires j < |others|
    ensures TailStart(p, systems, others, k, b) <= j < k ==> Fits(p, systems + others[j..], b)
    ensures j < TailStart(p, systems, others, k, b) ==> !Fits(p, systems + others[j..], b)
    decreases k
  {
    if k > 0 {
      if Fits(p, systems + others[k - 1..], b) {
        TailExtends(p, systems, others, k - 1, b, j);
      } else if j < k {
        LongerTailCostsMore(p, systems, others, j, k - 1);
      }
    }
  }

  /** The kept tail is exactly the longest suffix that fits beside the system messages. */
  lemma TailIsLongest(p: Provider, systems: seq<Message>, others: seq<Message>, b: Budget, j: nat)
    requires j < |others|
    ensures Fits(p, systems + others[j..], b) <==> TailStart(p, systems, others, |others|, b) <= j
  {
    TailExtends(p, systems, others, |others|, b, j);
  }

  lemma EverythingTogetherIsOverBudget(p: Provider, messages: seq<Message>, b: Budget)
    requires !Fits(p, messages, b)
    ensures !Fits(p, Systems(messages) + Others(messages)[0..], b)
  {
    TokensSplit(p, messages);
    TokensConcat(p, Systems(messages), Others(messages));
    assert Others(messages)[0..] == Others(messages);
  }

  /** Over budget with something to summarise, the head is never empty: the fallback is dead code. */
  lemma HeadIsNeverEmpty(p: Provider, messages: seq<Message>, b: Budget)
    requires !Fits(p, messages, b) && Others(messages) != []
    ensures Head(p, messages, b) != [] && Others(messages) == Head(p, messages, b) + Tail(p, messages, b)
  {
    var others := Others(messages);
    var start := TailStart(p, Systems(messages), others, |others|, b);
    assert start > 0 by {
      EverythingTogetherIsOverBudget(p, messages, b);
      TailIsLongest(p, Systems(messages), others, b, 0);
    }
    assert others == others[..start] + others[start..];
  }

  // ---- One level ---------------------------------------------------------------------------

  predicate OnlySystems(messages: seq<Message>) {
    forall i :: 0 <= i < |messages| ==> messages[i].role.System?
  }

  predicate NoSystems(messages: seq<Message>) {
    forall i :: 0 <= i < |messages| ==> !messages[i].role.System?
  }

  lemma {:induction false} SplitByRole(messages: seq<Message>)
    ensures OnlySystems(Systems(messages)) && NoSystems(Others(messages))
    decreases |messages|
  {
    if messages != [] {
      SplitByRole(messages[..|messages| - 1]);
    }
  }

  lemma {:induction false} AllSystems(messages: seq<Message>)
    requires OnlySystems(messages)
    ensures Systems(messages) == messages && Others(messages) == []
    decreases |messages|
  {
    if messages != [] {
      var init, last := messages[..|messages| - 1], messages[|messages| - 1];
      AllSystems(init);
      assert Systems(messages) == Systems(init) + [last];
      assert init + [last] == messages;
    }
  }

  predicate SplitsInto(messages: seq<Message>, systems: seq<Message>, others: seq<Message>) {
    Systems(messages) == systems && Others(messages) == others
  }

  lemma OneMoreOther(systems: seq<Message>, init: seq<Message>, last: Message)
    requires SplitsInto(systems + init, systems, init) && !last.role.System?
    ensures SplitsInto(systems + (init + [last]), systems, init + [last])
  {
    LastOther(systems + init, last);
    ConcatAssociates(systems, init, [last]);
  }

  lemma {:induction false} SplitConcat(systems: seq<Message>, others: seq<Message>)
    requires OnlySystems(systems) && NoSystems(others)
    ensures SplitsInto(systems + others, systems, others)
    decreases |others|
  {
    if others == [] {
      assert systems + others == systems;
      AllSystems(systems);
    } else {
      var init, last := others[..|others| - 1], others[|others| - 1];
      SplitConcat(systems, init);
      OneMoreOther(systems, init, last);
      assert init + [last] == others;
    }
  }

  /** A level that is over budget hands on strictly fewer non-system messages. */
  lemma LevelShrinks(p: Provider, level: nat, messages: seq<Message>, b: Budget)
    requires !Fits(p, messages, b) && Others(messages) != []
    ensures var next := NextLevel(p, level, messages, b);
            && Systems(next) == Systems(messages) + [Summary(p, level, Head(p, messages, b))]
            && Others(next) == Tail(p, messages, b) && |Others(next)| < |Others(messages)|
  {
    HeadIsNeverEmpty(p, messages, b);
    SplitByRole(messages);
    SplitConcat(Systems(messages) + [Summary(p, level, Head(p, messages, b))], Tail(p, messages, b));
  }

  // ---- Whole runs ---------------------------------------------------------------------------

  function Flatten(heads: seq<seq<Message>>): seq<Message> {
    if heads == [] then [] else heads[0] + Flatten(heads[1..])
  }

  /** One summary a head, in order, numbered from `level`. */
  function Summaries(p: Provider, level: nat, heads: seq<seq<Message>>): seq<Message>
    decreases |heads|
  {
    if heads == [] then [] else [Summary(p, level, heads[0])] + Summaries(p, level + 1, heads[1..])
  }

  /** Each non-system message is summarised once or kept, in order; system messages stay first. */
  ghost predicate Conserves(p: Provider, level: nat, messages: seq<Message>, r: Result) {
    && Flatten(r.heads) + Others(r.messages) == Others(messages)
    && (r.heads == [] ==> r.messages == messages)
    && (r.heads != [] ==>
          r.messages == Systems(messages) + Summaries(p, level, r.heads) + Others(r.messages))
    && (forall i :: 0 <= i < |r.heads| ==> r.heads[i] != [])
  }

  lemma ConcatAssociates<T>(a: seq<T>, b: seq<T>, c: seq<T>)
    ensures (a + b) + c == a + (b + c)
  {
  }

  lemma HeadsCons(p: Provider, level: nat, head: seq<Message>, heads: seq<seq<Message>>)
    ensures Flatten([head] + heads) == head + Flatten(heads)
    ensures Summaries(p, level, [head] + heads) == [Summary(p, level, head)] + Summaries(p, level + 1, heads)
  {
    assert ([head] + heads)[1..] == heads;
  }

  lemma Regroup<T>(a: seq<T>, b: seq<T>, c: seq<T>, d: seq<T>)
    ensures (a + b) + c + d == a + (b + c) + d
  {
    ConcatAssociates(a, b, c);
  }

  lemma NonEmptyHeads(head: seq<Message>, heads: seq<seq<Message>>)
    requires head != [] && forall i :: 0 <= i < |heads| ==> heads[i] != []
    ensures forall i :: 0 <= i < |[head] + heads| ==> ([head] + heads)[i] != []
  {
  }

  /** The final messages, seen from one level up. */
  lemma MessagesOneLevelUp(p: Provider, level: nat, systems: seq<Message>, next: seq<Message>,
                           head: seq<Message>, tail: seq<Message>, rest: Result)
    requires next == systems + [Summary(p, level, head)] + tail && Others(next) == tail
    requires Systems(next) == systems + [Summary(p, level, head)]
    requires Conserves(p, level + 1, next, rest)
    ensures rest.messages == systems + Summaries(p, level, [head] + rest.heads) + Others(rest.messages)
  {
    var summary, later := [Summary(p, level, head)], Summaries(p, level + 1, rest.heads);
    HeadsCons(p, level, head, rest.heads);
    if rest.heads == [] {
      assert summary + later == summary;
    } else {
      Regroup(systems, summary, later, Others(rest.messages));
    }
  }

  lemma LevelConserves(p: Provider, level: nat, messages: seq<Message>, next: seq<Message>,
                       head: seq<Message>, tail: seq<Message>, rest: Result)
    requires head != [] && Others(messages) == head + tail
    requires next == Systems(messages) + [Summary(p, level, head)] + tail && Others(next) == tail
    requires Systems(next) == Systems(messages) + [Summary(p, level, head)]
    requires Conserves(p, level + 1, next, rest)
    ensures Conserves(p, level, messages, Result(rest.outcome, rest.messages, [head] + rest.heads))
  {
    HeadsCons(p, level, head, rest.heads);
    ConcatAssociates(head, Flatten(rest.heads), Others(rest.messages));
    NonEmptyHeads(head, rest.heads);
    MessagesOneLevelUp(p, level, Systems(messages), next, head, tail, rest);
  }

  predicate Summarises(p: Provider, messages: seq<Message>, b: Budget) {
    messages != [] && !Fits(p, messages, b) && Others(messages) != []
  }

  /** The final size test only anticipates what the next level would return at once. */
  lemma CompressUnfolds(p: Provider, level: nat, messages: seq<Message>, b: Budget)
    requires Summarises(p, messages, b)
    ensures var rest := Compress(p, level + 1, NextLevel(p, level, messages, b), b);
            Compress(p, level, messages, b)
            == Result(rest.outcome, rest.messages, [Head(p, messages, b)] + rest.heads)
    ensures |Others(NextLevel(p, level, messages, b))| < |Others(messages)|
  {
    LevelShrinks(p, level, messages, b);
    assert [Head(p, messages, b)] + [] == [Head(p, messages, b)];
  }

  lemma StepConserves(p: Provider, level: nat, messages: seq<Message>, b: Budget, rest: Result)
    requires Summarises(p, messages, b)
    requires Conserves(p, level + 1, NextLevel(p, level, messages, b), rest)
    ensures Conserves(p, level, messages, Result(rest.outcome, rest.messages, [Head(p, messages, b)] + rest.heads))
  {
    HeadIsNeverEmpty(p, messages, b);
    LevelShrinks(p, level, messages, b);
    LevelConserves(p, level, messages, NextLevel(p, level, messages, b),
                   Head(p, messages, b), Tail(p, messages, b), rest);
  }

  /** Conservation over all levels of every run, for any summariser and any cost. */
  lemma {:induction false} HistoryIsConserved(p: Provider, level: nat, messages: seq<Message>, b: Budget)
    ensures Conserves(p, level, messages, Compress(p, level, messages, b))
    decreases |Others(messages)|
  {
    if Summarises(p, messages, b) {
      var next := NextLevel(p, level, messages, b);
      CompressUnfolds(p, level, messages, b);
      HistoryIsConserved(p, level + 1, next, b);
      StepConserves(p, level, messages, b, Compress(p, level + 1, next, b));
    } else {
      NothingSummarised(p, level, messages, b);
    }
  }

  lemma NothingSummarised(p: Provider, level: nat, messages: seq<Message>, b: Budget)
    requires !Summarises(p, messages, b)
    ensures Conserves(p, level, messages, Compress(p, level, messages, b))
  {
    assert Compress(p, level, messages, b).heads == [];
    assert Flatten([]) + Others(messages) == Others(messages);
  }

  lemma {:induction false} SummaryOfHead(p: Provider, level: nat, heads: seq<seq<Message>>, i: nat)
    requires i < |heads|
    ensures |Summaries(p, level, heads)| == |heads|
    ensures Summaries(p, level, heads)[i] == Message(System, SUMMARY_PREFIX + p.summarise(level + i, heads[i]))
    decreases |heads|
  {
    SummariesSize(p, level, heads);
    if i > 0 {
      SummaryOfHead(p, level + 1, heads[1..], i - 1);
      SummariesSize(p, level + 1, heads[1..]);
    }
  }

  lemma {:induction false} SummariesSize(p: Provider, level: nat, heads: seq<seq<Message>>)
    ensures |Summaries(p, level, heads)| == |heads|
    decreases |heads|
  {
    if heads != [] {
      SummariesSize(p, level + 1, heads[1..]);
    }
  }

  /**
   In place of each head stands what the model made of exactly that head: after the original system
   messages, the i-th summary is its answer to the i-th request, about the i-th head.
   */
  lemma SummariesStandForHeads(p: Provider, level: nat, messages: seq<Message>, b: Budget, i: nat)
    requires i < |Compress(p, level, messages, b).heads|
    ensures var r := Compress(p, level, messages, b);
            && |Systems(messages)| + i < |r.messages|
            && r.messages[|Systems(messages)| + i]
               == Message(System, SUMMARY_PREFIX + p.summarise(level + i, r.heads[i]))
  {
    HistoryIsConserved(p, level, messages, b);
    ConservedSummary(p, level, messages, Compress(p, level, messages, b), i);
  }

  lemma ConservedSummary(p: Provider, level: nat, messages: seq<Message>, r: Result, i: nat)
    requires Conserves(p, level, messages, r) && i < |r.heads|
    ensures |Systems(messages)| + i < |r.messages|
    ensures r.messages[|Systems(messages)| + i] == Message(System, SUMMARY_PREFIX + p.summarise(level + i, r.heads[i]))
  {
    SummaryOfHead(p, level, r.heads, i);
    MiddleOf(Systems(messages), Summaries(p, level, r.heads), Others(r.messages), i);
  }

  lemma MiddleOf<T>(a: seq<T>, b: seq<T>, c: seq<T>, i: nat)
    requires i < |b|
    ensures (a + b + c)[|a| + i] == b[i]
  {
  }

  /**
   How every run ends: within budget or with at most one message, unless it reaches an over-budget
   list of two or more system messages, and those are exactly the runs that never return.
   */
  lemma {:induction false} EndsFittingOrStuck(p: Provider, level: nat, messages: seq<Message>, b: Budget)
    ensures var r := Compress(p, level, messages, b);
            && (r.outcome == Done ==> Fits(p, r.messages, b) || |r.messages| <= 1)
            && (r.outcome == Stuck <==>
                  Others(r.messages) == [] && |r.messages| > 1 && !Fits(p, r.messages, b))
            && |r.heads| <= |Others(messages)|
    decreases |Others(messages)|
  {
    if Summarises(p, messages, b) {
      CompressUnfolds(p, level, messages, b);
      EndsFittingOrStuck(p, level + 1, NextLevel(p, level, messages, b), b);
    }
  }

  /** Whatever the summaries say, system messages that are over budget alone make the call never return. */
  lemma OversizedSystemAlwaysSticks(p: Provider, level: nat, messages: seq<Message>, b: Budget)
    requires Systems(messages) != [] && |messages| > 1
    requires !Fits(p, Systems(messages), b)
    ensures Compress(p, level, messages, b).outcome == Stuck
  {
    var r := Compress(p, level, messages, b);
    TokensSplit(p, messages);
    HistoryIsConserved(p, level, messages, b);
    EndsFittingOrStuck(p, level, messages, b);
    if r.heads != [] {
      TokensConcat(p, Systems(messages) + Summaries(p, level, r.heads), Others(r.messages));
      TokensConcat(p, Systems(messages), Summaries(p, level, r.heads));
    }
  }

  lemma {:induction false} SummariesCost(p: Provider, level: nat, heads: seq<seq<Message>>, size: nat)
    requires forall n: nat, head :: p.cost(Summary(p, n, head).content) <= size
    ensures Tokens(p, Summaries(p, level, heads)) <= |heads| * (size + MESSAGE_OVERHEAD)
    decreases |heads|
  {
    if heads != [] {
      SummariesCost(p, level + 1, heads[1..], size);
      TokensConcat(p, [Summary(p, level, heads[0])], Summaries(p, level + 1, heads[1..]));
      assert |heads| * (size + MESSAGE_OVERHEAD) == (|heads| - 1) * (size + MESSAGE_OVERHEAD) + size + MESSAGE_OVERHEAD;
    }
  }

  /** Summaries of bounded size always bring the call back when the budget has room for one a message. */
  lemma ShortSummariesReturn(p: Provider, level: nat, messages: seq<Message>, b: Budget, size: nat)
    requires Others(messages) != []
    requires forall n: nat, head :: p.cost(Summary(p, n, head).content) <= size
    requires Tokens(p, Systems(messages)) + |Others(messages)| * (size + MESSAGE_OVERHEAD) + b.reserve <= b.target
    ensures Compress(p, level, messages, b).outcome == Done
  {
    var r := Compress(p, level, messages, b);
    HistoryIsConserved(p, level, messages, b);
    EndsFittingOrStuck(p, level, messages, b);
    if r.outcome == Stuck {
      assert r.heads != [];
      SummariesCost(p, level, r.heads, size);
      TokensConcat(p, Systems(messages), Summaries(p, level, r.heads));
      assert Systems(messages) + Summaries(p, level, r.heads) + [] == Systems(messages) + Summaries(p, level, r.heads);
      MultiplyMonotone(|r.heads|, |Others(messages)|, size + MESSAGE_OVERHEAD);
    }
  }

  lemma MultiplyMonotone(a: nat, b: nat, c: nat)
    requires a <= b
    ensures a * c <= b * c
  {
  }

  // ---- Which calls return --------------------------------------------------------------------

  /**
   What a caller can see before the call: it is over budget, and the first level would leave its
   summary beside something else, a system message or a newest message that fits on its own.
   */
  predicate Risky(p: Provider, messages: seq<Message>, b: Budget) {
    && !Fits(p, messages, b) && |messages| > 1
    && (Systems(messages) != [] || Fits(p, [messages[|messages| - 1]], b))
  }

  lemma {:induction false} AllMessagesAreOthers(messages: seq<Message>)
    requires Systems(messages) == []
    ensures Others(messages) == messages
    decreases |messages|
  {
    if messages != [] {
      var init, last := messages[..|messages| - 1], messages[|messages| - 1];
      assert Systems(messages) == Systems(init) + (if last.role.System? then [last] else []);
      AllMessagesAreOthers(init);
      assert messages == init + [last];
    }
  }

  lemma LastTail(p: Provider, others: seq<Message>, b: Budget)
    requires others != []
    ensures TailStart(p, [], others, |others|, b) <= |others| - 1 <==> Fits(p, [others[|others| - 1]], b)
  {
    var last := |others| - 1;
    TailIsLongest(p, [], others, b, last);
    assert [] + others[last..] == [others[last]];
  }

  /** Without system messages the first level keeps some tail exactly when the newest message fits alone. */
  lemma TailIsKeptExactlyWhen(p: Provider, messages: seq<Message>, b: Budget)
    requires messages != [] && Systems(messages) == []
    ensures Tail(p, messages, b) != [] <==> Fits(p, [messages[|messages| - 1]], b)
  {
    AllMessagesAreOthers(messages);
    LastTail(p, messages, b);
  }

  /** The first level leaves nothing but its summary. */
  lemma SafeLevelIsOneMessage(p: Provider, level: nat, messages: seq<Message>, b: Budget)
    requires !Risky(p, messages, b) && Summarises(p, messages, b)
    ensures |NextLevel(p, level, messages, b)| == 1
  {
    HeadIsNeverEmpty(p, messages, b);
    if |messages| > 1 {
      TailIsKeptExactlyWhen(p, messages, b);
    }
  }

  /** A call that is not risky returns, for every summariser. */
  lemma SafeCallReturns(p: Provider, level: nat, messages: seq<Message>, b: Budget)
    requires !Risky(p, messages, b)
    ensures Compress(p, level, messages, b).outcome == Done
  {
    if Summarises(p, messages, b) {
      SafeLevelIsOneMessage(p, level, messages, b);
    }
  }

  /** A summary that is over budget alone, in the list for good. */
  lemma OversizedSummarySticks(p: Provider, level: nat, messages: seq<Message>, b: Budget, i: nat)
    requires |messages| > 1 && i < |Systems(messages)| && !Fits(p, [Systems(messages)[i]], b)
    ensures Compress(p, level, messages, b).outcome == Stuck
  {
    var systems := Systems(messages);
    assert systems == systems[..i] + [systems[i]] + systems[i + 1..];
    TokensConcat(p, systems[..i] + [systems[i]], systems[i + 1..]);
    TokensConcat(p, systems[..i], [systems[i]]);
    OversizedSystemAlwaysSticks(p, level, messages, b);
  }

  /** A risky call never returns when every summary is over budget on its own. */
  lemma RiskyCallSticks(p: Provider, level: nat, messages: seq<Message>, b: Budget)
    requires Risky(p, messages, b)
    requires forall n: nat, head :: !Fits(p, [Summary(p, n, head)], b)
    ensures Compress(p, level, messages, b).outcome == Stuck
  {
    if Others(messages) == [] {
      AllMessagesAreSystems(messages);
    } else {
      var next := NextLevel(p, level, messages, b);
      LevelShrinks(p, level, messages, b);
      CompressUnfolds(p, level, messages, b);
      if Systems(messages) == [] {
        TailIsKeptExactlyWhen(p, messages, b);
      }
      OversizedSummarySticks(p, level + 1, next, b, |Systems(messages)|);
    }
  }

  predicate Returns(cost: string -> nat, level: nat, messages: seq<Message>, b: Budget,
                          summarise: (nat, seq<Message>) -> string)
  {
    Compress(Provider(cost, summarise), level, messages, b).outcome == Done
  }

  lemma {:induction false} SameCost(p: Provider, q: Provider, messages: seq<Message>)
    requires p.cost == q.cost
    ensures Tokens(p, messages) == Tokens(q, messages)
    decreases |messages|
  {
    if messages != [] {
      SameCost(p, q, messages[..|messages| - 1]);
    }
  }

  lemma RiskDependsOnCost(p: Provider, q: Provider, messages: seq<Message>, b: Budget)
    requires p.cost == q.cost
    ensures Risky(p, messages, b) <==> Risky(q, messages, b)
  {
    SameCost(p, q, messages);
    if messages != [] {
      SameCost(p, q, [messages[|messages| - 1]]);
    }
  }

  /** A summariser that always answers with the same text. */
  function Always(text: string): (nat, seq<Message>) -> string {
    (n, head) => text
  }

  lemma HugeSummariesStick(p: Provider, level: nat, messages: seq<Message>, b: Budget, huge: string)
    requires !Fits(p, [Message(System, SUMMARY_PREFIX + huge)], b) && Risky(p, messages, b)
    ensures !Returns(p.cost, level, messages, b, Always(huge))
  {
    var worst := Provider(p.cost, Always(huge));
    RiskDependsOnCost(p, worst, messages, b);
    forall n: nat, head ensures !Fits(worst, [Summary(worst, n, head)], b) {
      SameCost(p, worst, [Message(System, SUMMARY_PREFIX + huge)]);
      assert Summary(worst, n, head) == Message(System, SUMMARY_PREFIX + huge);
    }
    RiskyCallSticks(worst, level, messages, b);
  }

  lemma SafeForEverySummariser(p: Provider, level: nat, messages: seq<Message>, b: Budget,
                               summarise: (nat, seq<Message>) -> string)
    requires !Risky(p, messages, b)
    ensures Returns(p.cost, level, messages, b, summarise)
  {
    RiskDependsOnCost(p, Provider(p.cost, summarise), messages, b);
    SafeCallReturns(Provider(p.cost, summarise), level, messages, b);
  }

  /**
   The exact condition on the input: a call returns whatever the summaries say exactly when it is not
   risky. The one assumption, that some summary is over budget alone, holds of every unbounded cost.
   */
  lemma ReturnsExactlyWhen(p: Provider, level: nat, messages: seq<Message>, b: Budget, huge: string)
    requires !Fits(p, [Message(System, SUMMARY_PREFIX + huge)], b)
    ensures (forall summarise :: Returns(p.cost, level, messages, b, summarise)) <==> !Risky(p, messages, b)
  {
    if Risky(p, messages, b) {
      HugeSummariesStick(p, level, messages, b, huge);
    } else {
      forall summarise: (nat, seq<Message>) -> string
        ensures Returns(p.cost, level, messages, b, summarise)
      {
        SafeForEverySummariser(p, level, messages, b, summarise);
      }
    }
  }

  function Length(text: string): nat { |text| }

  /** Such a call: two short messages, and a summariser that answers at length. */
  lemma EndlessCall(p: Provider, messages: seq<Message>, b: Budget)
    requires p == Provider(Length, Always("far too long")) && b == Budget(10, 0)
    requires messages == [Message(Other("user"), "hello"), Message(Other("assistant"), "hi")]
    ensures Compress(p, 0, messages, b).outcome == Stuck
  {
    var hello, hi := messages[0], messages[1];
    TokensOne(p, hello);
    TokensOne(p, hi);
    TokensLast(p, [hello], hi);
    assert messages == [hello] + [hi];
    forall n: nat, head ensures !Fits(p, [Summary(p, n, head)], b) {
      TokensOne(p, Summary(p, n, head));
    }
    RiskyCallSticks(p, 0, messages, b);
  }

  lemma TokensOne(p: Provider, m: Message)
    ensures Tokens(p, [m]) == p.cost(m.content) + MESSAGE_OVERHEAD
  {
    TokensLast(p, [], m);
    assert [] + [m] == [m];
  }

  // ---- The loops ------------------------------------------------------------------------------

  method EstimateTokens(p: Provider, messages: seq<Message>) returns (total: nat)
    ensures total == Tokens(p, messages)
  {
    total := 0;
    for i := 0 to |messages|
      invariant total == Tokens(p, messages[..i])
    {
      assert messages[..i + 1][..i] == messages[..i];
      total := total + p.cost(messages[i].content);
      total := total + MESSAGE_OVERHEAD;
    }
    assert messages[..|messages|] == messages;
  }

  method SplitMessages(messages: seq<Message>) returns (systems: seq<Message>, others: seq<Message>)
    ensures systems == Systems(messages) && others == Others(messages)
  {
    systems, others := [], [];
    for i := 0 to |messages|
      invariant systems == Systems(messages[..i]) && others == Others(messages[..i])
    {
      assert messages[..i + 1][..i] == messages[..i];
      if messages[i].role.System? {
        systems := systems + [messages[i]];
      } else {
        others := others + [messages[i]];
      }
    }
    assert messages[..|messages|] == messages;
  }

  /** Walk back from the newest message while the tail fits beside the system messages. */
  method KeepTail(p: Provider, systems: seq<Message>, others: seq<Message>, b: Budget)
    returns (head: seq<Message>, tail: seq<Message>)
    ensures var start := TailStart(p, systems, others, |others|, b);
            head == others[..start] && tail == others[start..]
  {
    head, tail := [], [];
    var k := |others|;
    while k > 0
      invariant 0 <= k <= |others| && head == [] && tail == others[k..]
      invariant TailStart(p, systems, others, |others|, b) == TailStart(p, systems, others, k, b)
    {
      var m := others[k - 1];
      var tokens := EstimateTokens(p, systems + (Reverse(tail) + [m]));
      TentativeCost(p, systems, tail, m);
      assert others[k - 1..] == [m] + tail;
      if tokens + b.reserve <= b.target {
        tail := [m] + tail;
        k := k - 1;
      } else {
        head := others[..k];
        return;
      }
    }
  }

  method CompressMessages(p: Provider, level: nat, messages: seq<Message>, b: Budget) returns (r: Result)
    ensures r == Compress(p, level, messages, b)
    decreases |Others(messages)|
  {
    if messages == [] {
      return Result(Done, messages, []);
    }
    var systems, others := SplitMessages(messages);
    var current := EstimateTokens(p, messages);
    if current + b.reserve <= b.target {
      return Result(Done, messages, []);
    }
    var head, tail := KeepTail(p, systems, others, b);
    var next := NextMessages(p, level, messages, b, head, tail);
    if head == [] {
      return Result(if |messages| > 1 then Stuck else Done, messages, []);
    }
    var size := EstimateTokens(p, next);
    if size + b.reserve > b.target && |next| > 1 {
      LevelShrinks(p, level, messages, b);
      var rest := CompressMessages(p, level + 1, next, b);
      return rest.(heads := [head] + rest.heads);
    }
    r := Result(Done, next, [head]);
  }

  /** The list after one level; the fallback that summarises the first message of the tail is never taken. */
  method NextMessages(p: Provider, level: nat, messages: seq<Message>, b: Budget,
                      head: seq<Message>, tail: seq<Message>)
    returns (next: seq<Message>)
    requires !Fits(p, messages, b)
    requires head == Head(p, messages, b) && tail == Tail(p, messages, b)
    ensures head == [] <==> Others(messages) == []
    ensures head == [] ==> next == messages
    ensures head != [] ==> next == NextLevel(p, level, messages, b)
  {
    if Others(messages) == [] {
      AllMessagesAreSystems(messages);
    } else {
      HeadIsNeverEmpty(p, messages, b);
    }
    if head == [] {
      if tail != [] {
        assert false;
      }
      next := Systems(messages) + tail;
    } else {
      next := Systems(messages) + [Summary(p, level, head)] + tail;
    }
  }

  lemma TentativeCost(p: Provider, systems: seq<Message>, tail: seq<Message>, m: Message)
    ensures Tokens(p, systems + (Reverse(tail) + [m])) == Tokens(p, systems + ([m] + tail))
  {
    TokensConcat(p, systems, Reverse(tail) + [m]);
    TokensConcat(p, Reverse(tail), [m]);
    TokensReverse(p, tail);
    TokensConcat(p, systems, [m] + tail);
    TokensConcat(p, [m], tail);
  }

  /** The list the recursion would repeat is its own input. */
  lemma {:induction false} AllMessagesAreSystems(messages: seq<Message>)
    requires Others(messages) == []
    ensures Systems(messages) == messages
    decreases |messages|
  {
    if messages != [] {
      AllMessagesAreSystems(messages[..|messages| - 1]);
    }
  }
}
