/** The think-act loop of an agent, with its guard against repeating a tool call. */
module ReActLoop {
  import opened Wrappers
  import opened Sanitization
  import opened ContextBudget

  datatype AgentState = Idle | Running | Finished | Error

  /** A decision of the model; `input` is the sorted JSON text of the arguments. */
  datatype Decision = Decision(thought: string, action: string, input: string, answer: string)

  /** What calling a tool does: it returns text, raises, or asks for an approval before it runs. */
  datatype Outcome = Returned(text: string) | Raised(message: string) | ApprovalRequired

  datatype HistoryItem = HistoryItem(step: nat, action: string, input: string, observation: string)

  /**
   The surroundings of a run, all arbitrary: what the model decides at each step from the history,
   what a call of a tool does at each step, which tools exist and how their names resolve.
   */
  datatype World = World(
    decide: (nat, seq<HistoryItem>) -> Option<Decision>,
    execute: (nat, string, string) -> Outcome,
    has: string -> bool,
    resolve: string -> string)

  const FINISHING_ACTIONS := ["finish", "stop", "final", "answer", "respond", "done"]

  const GUARDED_TOKENS :=
    ["web_search", "deepsearch", "fetch_url", "web_reader", "file_read", "file_stat", "file_list"]

  /** "Call failed", in the language of the source. */
  const CALL_FAILED := "\U{8C03}\U{7528}\U{5931}\U{8D25}"

  const FAILURE_MARKERS :=
    [CALL_FAILED, "tool not found", "not allowed", "timed out", "traceback"]

  predicate Finishing(action: string) {
    action == "" || Lower(action) in FINISHING_ACTIONS
  }

  predicate Guarded(name: string) {
    var normalized := Lower(Underscored(name));
    exists k :: 0 <= k < |GUARDED_TOKENS| && Contains(normalized, GUARDED_TOKENS[k])
  }

  predicate Reusable(observation: string) {
    var text := Strip(observation);
    text != "" && forall k :: 0 <= k < |FAILURE_MARKERS| ==> !Contains(Lower(text), FAILURE_MARKERS[k])
  }

  function CallKey(name: string, input: string): string { name + ":" + input }

  /** The history item answers a call with this key. */
  predicate Answers(w: World, item: HistoryItem, key: string) {
    && item.action != "" && item.action != "finish"
    && CallKey(w.resolve(item.action), item.input) == key
    && Reusable(item.observation)
  }

  predicate Duplicate(w: World, history: seq<HistoryItem>, action: string, input: string) {
    && Guarded(w.resolve(action))
    && exists i :: 0 <= i < |history| && Answers(w, history[i], CallKey(w.resolve(action), input))
  }

  /** Latest reusable item of the same call, searched from the newest. */
  method FindPreviousSuccessfulToolCall(w: World, history: seq<HistoryItem>, action: string, input: string)
    returns (previous: Option<HistoryItem>)
    ensures previous.Some? <==> Duplicate(w, history, action, input)
    ensures previous.Some? ==>
      exists i :: 0 <= i < |history| && history[i] == previous.value
        && Answers(w, history[i], CallKey(w.resolve(action), input))
        && forall j :: i < j < |history| ==> !Answers(w, history[j], CallKey(w.resolve(action), input))
  {
    var name := w.resolve(action);
    if !Guarded(name) {
      return None;
    }
    var key := CallKey(name, input);
    var i := |history|;
    while i > 0
      invariant 0 <= i <= |history|
      invariant forall j :: i <= j < |history| ==> !Answers(w, history[j], key)
    {
      i := i - 1;
      if history[i].action == "" || history[i].action == "finish" {
        continue;
      }
      if CallKey(w.resolve(history[i].action), history[i].input) == key && Reusable(history[i].observation) {
        return Some(history[i]);
      }
    }
    previous := None;
  }

  /** A tool call that was carried out, under its resolved name. */
  datatype Execution = Execution(step: nat, name: string, input: string, observation: string)

  predicate Records(w: World, item: HistoryItem, e: Execution) {
    && item.action != "" && item.action != "finish" && w.resolve(item.action) == e.name
    && item.input == e.input && item.observation == e.observation
  }

  predicate IsRecorded(w: World, history: seq<HistoryItem>, e: Execution) {
    exists k :: 0 <= k < |history| && Records(w, history[k], e)
  }

  /** Every execution left its observation in the history. */
  predicate Recorded(w: World, history: seq<HistoryItem>, executions: seq<Execution>) {
    forall e :: e in executions ==> IsRecorded(w, history, e)
  }

  predicate SameCall(a: Execution, b: Execution) {
    CallKey(a.name, a.input) == CallKey(b.name, b.input)
  }

  /** No guarded call is carried out again once it left a reusable observation. */
  predicate NeverRepeated(executions: seq<Execution>) {
    forall i, j :: 0 <= i < j < |executions| ==> Allowed(executions[i], executions[j])
  }

  predicate Allowed(earlier: Execution, later: Execution) {
    Guarded(later.name) && SameCall(earlier, later) ==> !Reusable(earlier.observation)
  }

  /** At most one execution a step, in step order. */
  predicate OnePerStep(executions: seq<Execution>, step: nat) {
    && (forall i :: 0 <= i < |executions| ==> 0 < executions[i].step <= step)
    && (forall i, j :: 0 <= i < j < |executions| ==> executions[i].step < executions[j].step)
  }

  /** The i-th call was made at step i + 1. */
  predicate EveryStep(executions: seq<Execution>) {
    forall i :: 0 <= i < |executions| ==> executions[i].step == i + 1
  }

  lemma EveryStepIsOnePerStep(executions: seq<Execution>, step: nat)
    requires EveryStep(executions) && |executions| <= step
    ensures OnePerStep(executions, step)
  {
  }

  lemma OneMoreStep(executions: seq<Execution>, more: seq<Execution>)
    requires EveryStep(executions) && |more| <= 1
    requires forall i :: 0 <= i < |more| ==> more[i].step == |executions| + 1
    ensures EveryStep(executions + more)
  {
  }

  /** What one decision leads to. */
  datatype Turn =
    | Concludes(answer: string)
    | NoTool(offered: Option<string>)
    | Reuses
    | Fails
    | Calls(execution: Execution)
  {
    function State(): AgentState {
      if Calls? then Running else if Fails? then Error else Finished
    }

    function Executed(): seq<Execution> {
      if Calls? then [execution] else []
    }

    /** The final answer after the turn. */
    function Final(before: Option<string>): Option<string> {
      if Concludes? then Some(answer) else if NoTool? && offered.Some? then offered else before
    }
  }

  /** Every turn but a stopped one leaves one item: the answer, a note, or the observation of the call. */
  predicate Noted(before: seq<HistoryItem>, after: seq<HistoryItem>, step: nat, decision: Decision, turn: Turn) {
    if turn.Fails? then after == before
    else
      && |after| == |before| + 1 && before <= after && after[|before|].step == step
      && (turn.Concludes? ==> after[|before|] == HistoryItem(step, "finish", "", turn.answer))
      && (turn.Reuses? ==> after[|before|].action == "finish" && after[|before|].input == "")
      && ((turn.NoTool? || turn.Calls?) ==>
            after[|before|].action == Strip(decision.action) && after[|before|].input == decision.input)
      && (turn.Calls? ==> after[|before|].observation == turn.execution.observation)
  }

  /** The text left in the history for a call that raised. */
  function FailureText(message: string): string { CALL_FAILED + "\U{FF1A}" + message }

  function TurnOf(w: World, history: seq<HistoryItem>, step: nat, decision: Decision): Turn {
    var action := Strip(decision.action);
    var answer := Strip(decision.answer);
    if Finishing(action) then Concludes(if answer != "" then answer else Strip(decision.thought))
    else if !w.has(action) then NoTool(if answer != "" then Some(answer) else None)
    else if Duplicate(w, history, action, decision.input) then Reuses
    else Called(w, step, w.resolve(action), decision.input)
  }

  function Called(w: World, step: nat, name: string, input: string): (turn: Turn)
    ensures turn.Calls? ==> turn.execution.step == step && turn.execution.name == name && turn.execution.input == input
  {
    match w.execute(step, name, input)
    case ApprovalRequired => Fails
    case Raised(message) => Calls(Execution(step, name, input, FailureText(message)))
    case Returned(text) => Calls(Execution(step, name, input, text))
  }

  lemma NotFinishing(action: string)
    requires !Finishing(action)
    ensures action != "" && action != "finish"
  {
    assert Lower("finish") == "finish" == FINISHING_ACTIONS[0];
  }

  lemma {:induction false} StripKeepsMark(prefix: string, mark: char, rest: string)
    requires prefix != "" && !IsSpace(prefix[0]) && !IsSpace(mark)
    ensures prefix + [mark] <= Strip(prefix + [mark] + rest)
  {
    var text := prefix + [mark] + rest;
    assert text[0] == prefix[0];
    if rest != "" && IsSpace(rest[|rest| - 1]) {
      assert text[..|text| - 1] == prefix + [mark] + rest[..|rest| - 1];
      StripKeepsMark(prefix, mark, rest[..|rest| - 1]);
    } else {
      assert rest == "" ==> text[|text| - 1] == mark;
      assert rest != "" ==> text[|text| - 1] == rest[|rest| - 1];
    }
  }

  /** A call that raised is never taken for a result, so the model may repeat it. */
  lemma FailedCallMayBeRepeated(message: string)
    ensures !Reusable(FailureText(message))
  {
    var mark := '\U{FF1A}';
    assert FailureText(message) == CALL_FAILED + [mark] + message;
    StripKeepsMark(CALL_FAILED, mark, message);
    var text := Strip(FailureText(message));
    assert CALL_FAILED <= text;
    assert Lower(text)[..4] == CALL_FAILED;
    assert Lower(text)[0..] == Lower(text);
    assert Contains(Lower(text), FAILURE_MARKERS[0]);
  }

  /** Whatever the turn, no guarded call is added whose key already has a reusable observation. */
  lemma CallIsGuarded(w: World, history: seq<HistoryItem>, executions: seq<Execution>, step: nat, decision: Decision)
    requires Recorded(w, history, executions) && NeverRepeated(executions)
    ensures NeverRepeated(executions + TurnOf(w, history, step, decision).Executed())
  {
    var turn := TurnOf(w, history, step, decision);
    if turn.Calls? {
      var all := executions + [turn.execution];
      forall i, j | 0 <= i < j < |all| ensures Allowed(all[i], all[j]) {
        if j == |executions| {
          assert all[i] in executions;
          var k :| 0 <= k < |history| && Records(w, history[k], all[i]);
          assert !Duplicate(w, history, Strip(decision.action), decision.input);
          assert !Answers(w, history[k], CallKey(turn.execution.name, turn.execution.input))
            || !Guarded(turn.execution.name);
        } else {
          assert Allowed(executions[i], executions[j]);
        }
      }
    } else {
      assert executions + [] == executions;
    }
  }

  lemma HistoryGrows(w: World, history: seq<HistoryItem>, item: HistoryItem, executions: seq<Execution>)
    requires Recorded(w, history, executions)
    ensures Recorded(w, history + [item], executions)
  {
    forall e | e in executions ensures IsRecorded(w, history + [item], e) {
      assert IsRecorded(w, history, e);
      var k :| 0 <= k < |history| && Records(w, history[k], e);
      assert (history + [item])[k] == history[k];
    }
  }

  lemma CallIsRecorded(w: World, history: seq<HistoryItem>, item: HistoryItem, executions: seq<Execution>, e: Execution)
    requires Recorded(w, history, executions) && Records(w, item, e)
    ensures Recorded(w, history + [item], executions + [e])
  {
    HistoryGrows(w, history, item, executions);
    assert (history + [item])[|history|] == item;
    assert IsRecorded(w, history + [item], e);
  }

  /**
   Why a run ends at a step that calls no tool, and with what: the model decided nothing, or its turn
   was no call; the state and the final answer are those of that turn.
   */
  predicate Ends(w: World, seen: seq<HistoryItem>, step: nat, before: Option<string>,
                 state: AgentState, answer: Option<string>)
  {
    var decision := w.decide(step, seen);
    if decision.None? then state == Finished && answer == before
    else
      var turn := TurnOf(w, seen, step, decision.value);
      && !turn.Calls? && (state == Error <==> turn.Fails?) && (state == Finished <==> !turn.Fails?)
      && answer == (if turn.Concludes? then Some(turn.answer)
                    else if turn.NoTool? && turn.offered.Some? then turn.offered else before)
  }

  // ---- Names and texts ----------------------------------------------------------------------------

  /** The word, in any case. */
  predicate Reads(text: string, word: string) { |text| == |word| && StandsAt(text, word, 0) }

  lemma ReadsExactly(text: string, word: string)
    requires NoCapitals(word)
    ensures Lower(text) == word <==> Reads(text, word)
  {
    if |text| == |word| {
      StandsAtPlace(text, word, 0);
      assert Lower(text)[0..] == Lower(text);
    }
  }

  /** An empty action concludes, and so do six words in any case, and nothing else. */
  lemma FinishingExactlyWhen(action: string)
    ensures Finishing(action) <==>
      action == "" || exists k :: 0 <= k < 6 && Reads(action, ["finish", "stop", "final", "answer", "respond", "done"][k])
  {
    WordExactly(action, FINISHING_ACTIONS);
  }

  lemma WordExactly(action: string, words: seq<string>)
    requires forall k :: 0 <= k < |words| ==> NoCapitals(words[k])
    ensures Lower(action) in words <==> exists k :: 0 <= k < |words| && Reads(action, words[k])
  {
    forall k | 0 <= k < |words| ensures Lower(action) == words[k] <==> Reads(action, words[k]) {
      ReadsExactly(action, words[k]);
    }
  }

  /** A letter of a tool name: any case, and a colon or a dash for an underscore. */
  predicate NameSpells(c: char, letter: char) {
    Spells(c, letter) || (letter == '_' && (c == ':' || c == '-'))
  }

  predicate NameStandsAt(name: string, token: string, p: nat) {
    p + |token| <= |name| && forall i :: 0 <= i < |token| ==> NameSpells(name[p + i], token[i])
  }

  predicate TokenLike(token: string) {
    NoCapitals(token) && forall i :: 0 <= i < |token| ==> token[i] != ':' && token[i] != '-'
  }

  function Underscored(name: string): (r: string)
    ensures |r| == |name|
    ensures forall i :: 0 <= i < |name| ==> r[i] == if name[i] == ':' || name[i] == '-' then '_' else name[i]
  {
    seq(|name|, i requires 0 <= i < |name| => if name[i] == ':' || name[i] == '-' then '_' else name[i])
  }

  lemma TokenExactly(name: string, token: string)
    requires TokenLike(token)
    ensures Contains(Lower(Underscored(name)), token) <==> exists p: nat :: NameStandsAt(name, token, p)
  {
    var plain := Underscored(name);
    forall p: nat ensures StandsAt(plain, token, p) <==> NameStandsAt(name, token, p) {
      if p + |token| <= |name| {
        forall i | 0 <= i < |token| ensures Spells(plain[p + i], token[i]) <==> NameSpells(name[p + i], token[i]) {
        }
        if StandsAt(plain, token, p) {
          forall i | 0 <= i < |token| ensures NameSpells(name[p + i], token[i]) {
            assert Spells(plain[p + i], token[i]);
          }
        }
        if NameStandsAt(name, token, p) {
          forall i | 0 <= i < |token| ensures Spells(plain[p + i], token[i]) {
            assert NameSpells(name[p + i], token[i]);
          }
        }
      }
    }
    ContainsExactlyWhen(plain, token);
    if p: nat :| StandsAt(plain, token, p) {
      assert NameStandsAt(name, token, p);
    }
    if p: nat :| NameStandsAt(name, token, p) {
      assert StandsAt(plain, token, p);
    }
  }

  ghost predicate OneTokenStandsIn(name: string, tokens: seq<string>) {
    exists k, p: nat :: 0 <= k < |tokens| && NameStandsAt(name, tokens[k], p)
  }

  lemma OneTokenExactly(name: string, tokens: seq<string>)
    requires forall k :: 0 <= k < |tokens| ==> TokenLike(tokens[k])
    ensures (exists k :: 0 <= k < |tokens| && Contains(Lower(Underscored(name)), tokens[k]))
            <==> OneTokenStandsIn(name, tokens)
  {
    if k :| 0 <= k < |tokens| && Contains(Lower(Underscored(name)), tokens[k]) {
      TokenExactly(name, tokens[k]);
      var p: nat :| NameStandsAt(name, tokens[k], p);
    }
    if k, p: nat :| 0 <= k < |tokens| && NameStandsAt(name, tokens[k], p) {
      TokenExactly(name, tokens[k]);
    }
  }

  /** A tool is guarded exactly when one of seven tokens stands in its name. */
  lemma GuardedExactlyWhen(name: string)
    ensures Guarded(name) <==> OneTokenStandsIn(name,
      ["web_search", "deepsearch", "fetch_url", "web_reader", "file_read", "file_stat", "file_list"])
  {
    OneTokenExactly(name, GUARDED_TOKENS);
  }

  /** An observation is reusable exactly when it is not blank and none of five markers stands in it. */
  lemma ReusableExactlyWhen(observation: string, start: nat, end: nat)
    requires IsTrimmed(observation, start, end)
    ensures var text := observation[start..end];
            Reusable(observation) <==>
            && text != ""
            && !OneStandsIn(text, [CALL_FAILED, "tool not found", "not allowed", "timed out", "traceback"])
  {
    StripExactly(observation, start, end);
    ContainsOneExactlyWhen(observation[start..end], FAILURE_MARKERS);
  }

  /** Calls of one tool have one key exactly when their arguments are one text. */
  lemma KeyTellsArguments(name: string, a: string, b: string)
    ensures CallKey(name, a) == CallKey(name, b) <==> a == b
  {
    assert CallKey(name, a)[|name| + 1..] == a && CallKey(name, b)[|name| + 1..] == b;
  }

  lemma Append<T>(a: seq<T>, b: seq<T>, c: seq<T>)
    ensures (a + b) + c == a + (b + c)
  {
  }

  class ReActAgent {
    const world: World
    const maxSteps: nat
    var state: AgentState
    var currentStep: nat
    var history: seq<HistoryItem>
    var finalAnswer: Option<string>
    ghost var executions: seq<Execution>

    constructor (world: World, maxSteps: int)
      ensures this.world == world && this.maxSteps == Max(1, maxSteps)
      ensures state == Idle && history == [] && executions == [] && finalAnswer == None
    {
      this.world := world;
      this.maxSteps := Max(1, maxSteps);
      this.state := Idle;
      this.currentStep := 0;
      this.history := [];
      this.finalAnswer := None;
      this.executions := [];
    }

    ghost predicate Guard()
      reads this
    {
      Recorded(world, history, executions) && NeverRepeated(executions)
    }

    method Remember(item: HistoryItem)
      requires Guard()
      modifies this`history
      ensures history == old(history) + [item] && Guard()
    {
      HistoryGrows(world, history, item, executions);
      history := history + [item];
    }

    /** One `act`: conclude, reuse an earlier result, or call one tool. */
    method Act(decision: Decision)
      requires Guard() && state == Running
      modifies this`state, this`history, this`finalAnswer, this`executions
      ensures Guard() && old(history) <= history
      ensures state == TurnOf(world, old(history), currentStep, decision).State()
      ensures executions == old(executions) + TurnOf(world, old(history), currentStep, decision).Executed()
      ensures finalAnswer == TurnOf(world, old(history), currentStep, decision).Final(old(finalAnswer))
      ensures Noted(old(history), history, currentStep, decision, TurnOf(world, old(history), currentStep, decision))
    {
      ghost var turn := TurnOf(world, history, currentStep, decision);
      CallIsGuarded(world, history, executions, currentStep, decision);
      var action := Strip(decision.action);
      var answer := Strip(decision.answer);
      if Finishing(action) {
        finalAnswer := Some(if answer != "" then answer else Strip(decision.thought));
        Remember(HistoryItem(currentStep, "finish", "", finalAnswer.value));
        state := Finished;
        return;
      }
      if !world.has(action) {
        Remember(HistoryItem(currentStep, action, decision.input, "no such tool"));
        if answer != "" {
          finalAnswer := Some(answer);
        }
        state := Finished;
        return;
      }
      var previous := FindPreviousSuccessfulToolCall(world, history, action, decision.input);
      if previous.Some? {
        Remember(HistoryItem(currentStep, "finish", "", "result reused"));
        state := Finished;
        return;
      }
      NotFinishing(action);
      Invoke(action, decision.input, turn);
    }

    /** The call itself; only an approval request leaves nothing behind. */
    method Invoke(action: string, input: string, ghost turn: Turn)
      requires Guard() && state == Running && action != "" && action != "finish"
      requires NeverRepeated(executions + turn.Executed())
      requires turn == Called(world, currentStep, world.resolve(action), input)
      modifies this`state, this`history, this`executions
      ensures Guard() && old(history) <= history
      ensures state == turn.State() && executions == old(executions) + turn.Executed()
      ensures turn.Fails? ==> history == old(history)
      ensures turn.Calls? ==>
        history == old(history) + [HistoryItem(currentStep, action, input, turn.execution.observation)]
    {
      var outcome := world.execute(currentStep, world.resolve(action), input);
      if outcome.ApprovalRequired? {
        state := Error;
        return;
      }
      var observation := if outcome.Raised? then FailureText(outcome.message) else outcome.text;
      var item := HistoryItem(currentStep, action, input, observation);
      CallIsRecorded(world, history, item, executions, turn.execution);
      history := history + [item];
      executions := executions + [turn.execution];
    }

    /** Think, then act; without a decision the run is over. */
    method Step() returns (ghost made: seq<Execution>)
      requires Guard() && state == Running
      modifies this`state, this`history, this`finalAnswer, this`executions
      ensures Guard() && old(history) <= history && state != Idle
      ensures executions == old(executions) + made
      ensures |made| <= 1 && (state == Running <==> |made| == 1)
      ensures forall i :: 0 <= i < |made| ==> made[i].step == currentStep
      ensures made == [] ==> Ends(world, old(history), currentStep, old(finalAnswer), state, finalAnswer)
      ensures made != [] ==> finalAnswer == old(finalAnswer)
    {
      made := [];
      var decision := world.decide(currentStep, history);
      if decision.None? {
        state := Finished;
      } else {
        made := TurnOf(world, history, currentStep, decision.value).Executed();
        Act(decision.value);
      }
    }

    /**
     A whole run, against any model and any tools: it ends within `maxSteps` steps, calls at most
     one tool a step, and, counting every earlier run of the agent, never repeats a guarded call
     that already left a reusable observation. It goes on as long as its steps call tools: it ends
     after `maxSteps` calls, or at the first step that makes none, for the reason `Ends` gives of what
     the model saw then.
     */
    method Run() returns (ghost made: seq<Execution>, ghost seen: seq<HistoryItem>)
      requires Guard()
      modifies this
      ensures Guard() && old(history) <= history
      ensures executions == old(executions) + made
      ensures OnePerStep(made, currentStep) && currentStep <= maxSteps
      ensures EveryStep(made)
      ensures |made| == currentStep == maxSteps || |made| == currentStep - 1
      ensures |made| == currentStep ==> state == Finished && finalAnswer == old(finalAnswer)
      ensures |made| == currentStep - 1 ==>
        seen <= history && Ends(world, seen, currentStep, old(finalAnswer), state, finalAnswer)
      ensures state == Finished || state == Error
    {
      made, seen := [], history;
      state := Running;
      currentStep := 0;
      while state == Running && currentStep < maxSteps
        invariant Guard() && old(history) <= history && seen <= history
        invariant executions == old(executions) + made
        invariant EveryStep(made)
        invariant currentStep <= maxSteps && state != Idle
        invariant state == Running ==> |made| == currentStep && finalAnswer == old(finalAnswer)
        invariant state != Running ==>
          |made| == currentStep - 1 && Ends(world, seen, currentStep, old(finalAnswer), state, finalAnswer)
        decreases maxSteps - currentStep
      {
        currentStep := currentStep + 1;
        seen := history;
        ghost var more := Step();
        OneMoreStep(made, more);
        Append(old(executions), made, more);
        made := made + more;
      }
      EveryStepIsOnePerStep(made, currentStep);
      if state == Running {
        state := Finished;
      }
    }
  }
}
