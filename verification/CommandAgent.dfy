/** The agent's two tool-calling loops as they are run, proved to do what `ToolLoop` says. */
module CommandAgent {
  import opened ToolLoop
  import opened ToolOutcomes

  /** The loop state, with the message list and the retry counters the loops share with
      `_execute_tool_with_recovery`. */
  class LoopState {
    var roundNum: nat
    var totalToolCalls: nat
    var failedTools: seq<Failure>
    var contextCollapsed: bool
    var modelSwitched: bool
    var retryCounts: map<Key, nat>
    var messages: seq<Role>
    var clock: nat                       // questions asked of the provider and the tools so far
    ghost var executed: seq<Key>
    ghost var toolSleep: nat
    ghost var providerSleep: nat
    ghost var recoveries: seq<Recovery>

    constructor ()
      ensures View() == START
    {
      roundNum, totalToolCalls, failedTools, contextCollapsed, modelSwitched := 0, 0, [], false, false;
      retryCounts, messages, clock := map[], [System, User], 0;
      executed, toolSleep, providerSleep, recoveries := [], 0, 0, [];
    }

    ghost function View(): Loop
      reads this
    {
      Loop(roundNum, totalToolCalls, failedTools, contextCollapsed, modelSwitched, retryCounts, messages, clock,
           executed, toolSleep, providerSleep, recoveries)
    }

    predicate CanRetry(maxRounds: int)
      reads this
      ensures CanRetry(maxRounds) == ToolLoop.CanRetry(View(), maxRounds)
    {
      roundNum < maxRounds && |failedTools| < 5
    }
  }

  class AICommandAgent {
    const outside: Outside
    const maxRounds: int

    constructor (outside: Outside, maxRounds: int)
      ensures this.outside == outside && this.maxRounds == maxRounds
    {
      this.outside, this.maxRounds := outside, maxRounds;
    }

    /** One pass of the retry loop: executes the tool and decides whether to try again. */
    method AttemptTool(key: Key, state: LoopState, current: nat) returns (again: bool)
      modifies state
      ensures (state.View(), again) == ToolAttempt(old(state.View()), outside, key, current)
    {
      var answer := outside.tool(state.clock);
      state.clock := state.clock + 1;
      state.executed := state.executed + [key];
      if answer.Ran? {
        state.totalToolCalls := state.totalToolCalls + 1;
        return false;
      }
      var strategy := RecoveryStrategy(answer.flags, current);
      if strategy == RetryWithBackoff {
        state.toolSleep := state.toolSleep + Delay(current);
      }
      again := strategy == RetrySimple || strategy == RetryWithBackoff || (strategy == DrainAndRetry && current == 0);
      if again {
        state.retryCounts := state.retryCounts[key := current + 1];
      } else {
        state.failedTools := state.failedTools + [ToolFailed(key, answer.flags)];
      }
    }

    /** Executes a single tool with automatic retry and recovery. */
    method ExecuteToolWithRecovery(key: Key, state: LoopState)
      modifies state
      ensures state.View() == RunTool(old(state.View()), outside, key, Count(old(state.retryCounts), key))
      ensures
        var s, c := old(state.View()), Count(old(state.retryCounts), key);
        c <= 3 ==>
          var m := Retries(outside, s.tick, c);
          state.View() == Ended(s, outside, key, c, m, Pauses(outside, s.tick, c, m))
    {
      hide ToolAttempt, Ended, Retries, Pauses;
      var current := if key in state.retryCounts then state.retryCounts[key] else 0;
      ghost var spec := RunTool(state.View(), outside, key, current);
      if current <= 3 { ToolOutcome(state.View(), outside, key, current); }
      while current < 3
        invariant RunTool(state.View(), outside, key, current) == spec
        decreases if current < 3 then 3 - current else 0
      {
        var again := AttemptTool(key, state, current);
        if !again { return; }
        current := current + 1;
      }
    }

    /** Executes the tool calls of one reply. */
    method ExecuteCalls(calls: seq<Key>, state: LoopState, native: bool)
      modifies state
      ensures state.View() == RunTools(old(state.View()), outside, calls, native)
    {
      hide RunTool;
      ghost var spec := RunTools(state.View(), outside, calls, native);
      for i := 0 to |calls|
        invariant RunTools(state.View(), outside, calls[i..], native) == spec
      {
        assert calls[i..][0] == calls[i] && calls[i..][1..] == calls[i + 1..];
        ExecuteToolWithRecovery(calls[i], state);
        if native { state.messages := state.messages + [Tool]; }
      }
    }

    /** Handles a provider error; false when the loop must break. */
    method RecoverProvider(flags: Flags, state: LoopState, native: bool) returns (next: Next)
      modifies state
      ensures (state.View(), next) == Recover(old(state.View()), outside, flags, native)
    {
      hide RecoveryStrategy;
      var strategy := RecoveryStrategy(flags, state.roundNum);
      if strategy == RetryWithBackoff {
        state.providerSleep := state.providerSleep + if state.roundNum == 0 then 0 else Delay(state.roundNum - 1);
        state.recoveries := state.recoveries + [Backoff(state.roundNum)];
        return Continue;
      }
      if strategy == CollapseAndRetry && |state.messages| > 4 {
        state.recoveries := state.recoveries + [Collapse(state.roundNum, state.messages)];
        state.messages := [state.messages[0], state.messages[1], state.messages[|state.messages| - 1]];
        state.contextCollapsed := true;
        return Continue;
      }
      if strategy == SwitchModel && native && !state.modelSwitched && outside.fallback {
        state.modelSwitched := true;
        state.recoveries := state.recoveries + [ModelSwitch(state.roundNum)];
        return Continue;
      }
      state.failedTools := state.failedTools + [ProviderFailed(flags)];
      next := Break;
    }

    /** One turn with native tool calls. */
    method NativeTurn(state: LoopState) returns (next: Next)
      modifies state
      ensures (state.View(), next) == Turn(old(state.View()), outside, true)
    {
      hide RunTools, Recover;
      var reply := outside.provider(state.clock);
      state.roundNum, state.clock := state.roundNum + 1, state.clock + 1;
      if reply.ProviderRaised? {
        next := RecoverProvider(reply.flags, state, true);
      } else if reply.calls == [] {
        next := if reply.success && reply.hasContent then Return else Break;
      } else {
        state.messages := state.messages + [Assistant];
        ExecuteCalls(reply.calls, state, true);
        next := Continue;
      }
    }

    /** The loop for providers with native tool calls; true when it returned a final response. */
    method RunNativeToolLoop(state: LoopState) returns (returned: bool)
      modifies state
      ensures (state.View(), returned) == Rounds(old(state.View()), outside, maxRounds, true)
    {
      hide Turn;
      ghost var spec := Rounds(state.View(), outside, maxRounds, true);
      while state.CanRetry(maxRounds)
        invariant Rounds(state.View(), outside, maxRounds, true) == spec
        decreases maxRounds - state.roundNum
      {
        TurnCountsRound(state.View(), outside, true);
        var next := NativeTurn(state);
        if next == Break { return false; }
        if next == Return { return true; }
      }
      returned := false;
    }

    /** One turn with tool calls parsed from the text of the reply. */
    method PromptTurn(state: LoopState) returns (next: Next)
      modifies state
      ensures (state.View(), next) == Turn(old(state.View()), outside, false)
    {
      hide RunTools, Recover;
      var reply := outside.provider(state.clock);
      state.roundNum, state.clock := state.roundNum + 1, state.clock + 1;
      if reply.ProviderRaised? {
        next := RecoverProvider(reply.flags, state, false);
      } else if !reply.success || !reply.hasContent {
        next := Break;
      } else if reply.calls == [] {
        next := Return;
      } else {
        state.messages := state.messages + [Assistant];
        ExecuteCalls(reply.calls, state, false);
        state.messages := state.messages + [User];
        next := Continue;
      }
    }

    /** The loop for providers whose tool calls are parsed from their text. */
    method RunPromptToolLoop(state: LoopState) returns (returned: bool)
      modifies state
      ensures (state.View(), returned) == Rounds(old(state.View()), outside, maxRounds, false)
    {
      hide Turn;
      ghost var spec := Rounds(state.View(), outside, maxRounds, false);
      while state.CanRetry(maxRounds)
        invariant Rounds(state.View(), outside, maxRounds, false) == spec
        decreases maxRounds - state.roundNum
      {
        TurnCountsRound(state.View(), outside, false);
        var next := PromptTurn(state);
        if next == Break { return false; }
        if next == Return { return true; }
      }
      returned := false;
    }
  }
}
