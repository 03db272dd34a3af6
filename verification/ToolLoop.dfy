/** The command agent's bounded tool-calling loop with recovery (`modules/ai_command_agent.py`).

The provider and the tools are an `Outside`: how the question asked at each tick is answered. */
module ToolLoop {

  /** A tool name with its JSON arguments. */
  type Key = string

  datatype Strategy =
    RetrySimple | RetryWithBackoff | CollapseAndRetry | DrainAndRetry | SwitchModel | SwitchTier | Abort

  /** What `classify_error` reads off an error message. */
  datatype Flags = Flags(transient: bool, toolBug: bool, overflow: bool, permission: bool)

  /** `ToolCallError.get_recovery_strategy`. */
  function RecoveryStrategy(f: Flags, retryCount: nat): Strategy {
    if retryCount >= 3 then Abort
    else if f.transient then RetryWithBackoff
    else if f.overflow then CollapseAndRetry
    else if f.toolBug then DrainAndRetry
    else if f.permission then Abort
    else RetrySimple
  }

  datatype Role = System | User | Assistant | Tool

  datatype Failure = ProviderFailed(flags: Flags) | ToolFailed(key: Key, flags: Flags)

  /** A recovery taken after a provider error, with the messages held when it was taken. */
  datatype Recovery = Backoff(round: nat) | Collapse(round: nat, held: seq<Role>) | ModelSwitch(round: nat)

  /** `LoopState`, the message list, the retry counters, and what the command has cost: the keys of the
      tool executions, in order, and the sleeps. */
  datatype Loop = Loop(round: nat, toolCalls: nat, failed: seq<Failure>, collapsed: bool, switched: bool,
                       counts: map<Key, nat>, messages: seq<Role>, tick: nat,
                       executed: seq<Key>, toolSleep: nat, providerSleep: nat, recoveries: seq<Recovery>)

  datatype ToolAnswer = Ran | ToolRaised(flags: Flags)

  datatype Reply = ProviderRaised(flags: Flags) | Answered(success: bool, hasContent: bool, calls: seq<Key>)

  datatype Outside = Outside(tool: nat -> ToolAnswer, provider: nat -> Reply, fallback: bool)

  function Delay(n: nat): nat {
    match n case 0 => 1 case 1 => 2 case 2 => 4 case _ => 8
  }

  function Count(counts: map<Key, nat>, key: Key): nat {
    if key in counts then counts[key] else 0
  }

  /** Whether a failed attempt is repeated: a tool bug only at first, a permission or context error
      never. */
  function Repeats(f: Flags, current: nat): bool {
    var strategy := RecoveryStrategy(f, current);
    strategy == RetrySimple || strategy == RetryWithBackoff || (strategy == DrainAndRetry && current == 0)
  }

  /** One execution of a tool, with the bookkeeping that follows it; true to try again. */
  function ToolAttempt(s: Loop, o: Outside, key: Key, current: nat): (Loop, bool) {
    var s1 := s.(tick := s.tick + 1, executed := s.executed + [key]);
    match o.tool(s.tick)
    case Ran => (s1.(toolCalls := s1.toolCalls + 1), false)
    case ToolRaised(f) =>
      if Repeats(f, current) then
        var pause := if RecoveryStrategy(f, current) == RetryWithBackoff then Delay(current) else 0;
        (s1.(toolSleep := s1.toolSleep + pause, counts := s1.counts[key := current + 1]), true)
      else (s1.(failed := s1.failed + [ToolFailed(key, f)]), false)
  }

  /** `_execute_tool_with_recovery` from its `current`-th retry on. */
  function RunTool(s: Loop, o: Outside, key: Key, current: nat): Loop
    decreases 3 - current
  {
    if current >= 3 then s
    else
      var (t, again) := ToolAttempt(s, o, key, current);
      if again then RunTool(t, o, key, current + 1) else t
  }

  /** The tool calls of one reply; the native loop appends one message for each result. */
  function RunTools(s: Loop, o: Outside, keys: seq<Key>, native: bool): Loop
    decreases |keys|
  {
    if keys == [] then s
    else
      var s1 := RunTool(s, o, keys[0], Count(s.counts, keys[0]));
      RunTools(if native then s1.(messages := s1.messages + [Tool]) else s1, o, keys[1..], native)
  }

  datatype Next = Continue | Break | Return

  /** What a provider error in round `s.round` leads to. */
  function Recover(s: Loop, o: Outside, f: Flags, native: bool): (Loop, Next) {
    var giveUp := (s.(failed := s.failed + [ProviderFailed(f)]), Break);
    match RecoveryStrategy(f, s.round)
    case RetryWithBackoff =>
      (s.(providerSleep := s.providerSleep + (if s.round == 0 then 0 else Delay(s.round - 1)),
          recoveries := s.recoveries + [Backoff(s.round)]), Continue)
    case CollapseAndRetry =>
      if |s.messages| > 4 then
        (s.(messages := [s.messages[0], s.messages[1], s.messages[|s.messages| - 1]], collapsed := true,
            recoveries := s.recoveries + [Collapse(s.round, s.messages)]), Continue)
      else giveUp
    case SwitchModel =>
      if native && !s.switched && o.fallback then
        (s.(switched := true, recoveries := s.recoveries + [ModelSwitch(s.round)]), Continue)
      else giveUp
    case _ => giveUp
  }

  /** One turn of the native or the prompt-based loop. */
  function Turn(s: Loop, o: Outside, native: bool): (Loop, Next) {
    var s1 := s.(round := s.round + 1, tick := s.tick + 1);
    match o.provider(s.tick)
    case ProviderRaised(f) => Recover(s1, o, f, native)
    case Answered(success, hasContent, calls) =>
      if native then
        if calls == [] then (s1, if success && hasContent then Return else Break)
        else (RunTools(s1.(messages := s1.messages + [Assistant]), o, calls, true), Continue)
      else if !success || !hasContent then (s1, Break)
      else if calls == [] then (s1, Return)
      else
        var s2 := RunTools(s1.(messages := s1.messages + [Assistant]), o, calls, false);
        (s2.(messages := s2.messages + [User]), Continue)
  }

  /** `can_retry`. */
  predicate CanRetry(s: Loop, maxRounds: int) {
    s.round < maxRounds && |s.failed| < 5
  }

  /** The loop from `s` on; true when it returned a final response. */
  function Rounds(s: Loop, o: Outside, maxRounds: int, native: bool): (Loop, bool)
    decreases maxRounds - s.round
  {
    if !CanRetry(s, maxRounds) then (s, false)
    else
      TurnCountsRound(s, o, native);
      var (t, next) := Turn(s, o, native);
      match next
      case Continue => Rounds(t, o, maxRounds, native)
      case Break => (t, false)
      case Return => (t, true)
  }

  const START := Loop(0, 0, [], false, false, map[], [System, User], 0, [], 0, 0, [])

  // ----- rounds

  lemma {:induction false} ToolKeepsRound(s: Loop, o: Outside, key: Key, current: nat)
    ensures
      var t := RunTool(s, o, key, current);
      && t.round == s.round && t.messages == s.messages && t.recoveries == s.recoveries
      && t.switched == s.switched && t.collapsed == s.collapsed && t.providerSleep == s.providerSleep
    decreases 3 - current
  {
    if current < 3 {
      var (t, again) := ToolAttempt(s, o, key, current);
      if again { ToolKeepsRound(t, o, key, current + 1); }
    }
  }

  function Tools(n: nat): seq<Role> {
    seq(n, _ => Tool)
  }

  lemma {:induction false} ToolsKeepRound(s: Loop, o: Outside, keys: seq<Key>, native: bool)
    ensures
      var t := RunTools(s, o, keys, native);
      && t.round == s.round && t.recoveries == s.recoveries && t.switched == s.switched
      && t.collapsed == s.collapsed && t.providerSleep == s.providerSleep
      && t.messages == if native then s.messages + Tools(|keys|) else s.messages
    decreases |keys|
  {
    if keys == [] {
      assert s.messages + Tools(0) == s.messages;
    } else {
      var s1 := RunTool(s, o, keys[0], Count(s.counts, keys[0]));
      ToolKeepsRound(s, o, keys[0], Count(s.counts, keys[0]));
      var s2 := if native then s1.(messages := s1.messages + [Tool]) else s1;
      ToolsKeepRound(s2, o, keys[1..], native);
      assert [Tool] + Tools(|keys| - 1) == Tools(|keys|);
      assert s.messages + [Tool] + Tools(|keys| - 1) == s.messages + Tools(|keys|);
    }
  }

  lemma TurnCountsRound(s: Loop, o: Outside, native: bool)
    ensures Turn(s, o, native).0.round == s.round + 1
  {
    if o.provider(s.tick).Answered? {
      var s1 := s.(round := s.round + 1, tick := s.tick + 1, messages := s.messages + [Assistant]);
      ToolsKeepRound(s1, o, o.provider(s.tick).calls, native);
    }
  }

  // ----- which recoveries can fire

  /** The messages that can be held after `round` rounds, as far as recovery depends on them. */
  ghost predicate Held(messages: seq<Role>, round: nat, native: bool) {
    && |messages| >= 2
    && (round == 0 ==> messages == [System, User])
    && (round == 1 ==>
          || messages == [System, User]
          || (native && exists n: nat :: messages == [System, User, Assistant] + Tools(n))
          || (!native && messages == [System, User, Assistant, User]))
  }

  /** Backoffs in rounds 1 and 2; a collapse only in round 2 of the native loop, holding at least two
      tool results; never a model switch. */
  ghost predicate Permitted(r: Recovery, native: bool) {
    match r
    case Backoff(round) => round == 1 || round == 2
    case Collapse(round, held) =>
      native && round == 2 && exists n: nat :: n >= 2 && held == [System, User, Assistant] + Tools(n)
    case ModelSwitch(_) => false
  }

  function Collapses(rs: seq<Recovery>): nat {
    if rs == [] then 0 else Collapses(rs[..|rs| - 1]) + if rs[|rs| - 1].Collapse? then 1 else 0
  }

  ghost predicate Restrained(s: Loop, native: bool) {
    && !s.switched
    && (forall i | 0 <= i < |s.recoveries| :: Permitted(s.recoveries[i], native))
    && Collapses(s.recoveries) <= (if s.round >= 2 then 1 else 0)
    && (s.collapsed <==> Collapses(s.recoveries) > 0)
    && s.providerSleep <= (if s.round == 0 then 0 else if s.round == 1 then 1 else 3)
  }

  lemma RecoverRestrained(s: Loop, o: Outside, f: Flags, native: bool)
    requires s.round >= 1
    requires Restrained(s.(round := s.round - 1), native) && Held(s.messages, s.round - 1, native)
    ensures Restrained(Recover(s, o, f, native).0, native) && Recover(s, o, f, native).0.round == s.round
    ensures Recover(s, o, f, native).1 == Continue ==> Held(Recover(s, o, f, native).0.messages, s.round, native)
  {
    var t := Recover(s, o, f, native).0;
    if t.recoveries != s.recoveries {
      assert t.recoveries[..|t.recoveries| - 1] == s.recoveries;
      if t.recoveries[|s.recoveries|].Collapse? && s.round == 2 && native {
        var n: nat :| s.messages == [System, User, Assistant] + Tools(n);
      }
    }
  }

  lemma TurnRestrained(s: Loop, o: Outside, native: bool)
    requires Restrained(s, native) && Held(s.messages, s.round, native)
    ensures
      var (t, next) := Turn(s, o, native);
      Restrained(t, native) && (next == Continue ==> Held(t.messages, t.round, native))
  {
    hide Recover, RunTools, Permitted, Tools;
    var s1 := s.(round := s.round + 1, tick := s.tick + 1);
    match o.provider(s.tick) {
      case ProviderRaised(f) => RecoverRestrained(s1, o, f, native);
      case Answered(success, hasContent, calls) =>
        var s2 := s1.(messages := s1.messages + [Assistant]);
        ToolsKeepRound(s2, o, calls, native);
        if s.round == 0 {
          assert [System, User] + [Assistant] == [System, User, Assistant];
        }
    }
  }

  lemma {:induction false} RoundsRestrained(s: Loop, o: Outside, maxRounds: int, native: bool)
    requires Restrained(s, native) && Held(s.messages, s.round, native)
    ensures Restrained(Rounds(s, o, maxRounds, native).0, native)
    ensures Rounds(s, o, maxRounds, native).0.round <= (if maxRounds > s.round then maxRounds else s.round)
    decreases maxRounds - s.round
  {
    if CanRetry(s, maxRounds) {
      TurnRestrained(s, o, native);
      TurnCountsRound(s, o, native);
      var (t, next) := Turn(s, o, native);
      if next == Continue {
        RoundsRestrained(t, o, maxRounds, native);
      }
    }
  }

  /** For every number of rounds and every provider and tool behaviour: provider errors are retried
      only in rounds 1 and 2; the native loop collapses at most once, in round 2 with at least two tool
      results; the prompt loop never collapses; the model is never switched; the provider's backoffs
      take at most 3 seconds. */
  lemma RecoveriesThatCanFire(o: Outside, maxRounds: int, native: bool)
    ensures
      var t := Rounds(START, o, maxRounds, native).0;
      && !t.switched && Collapses(t.recoveries) <= 1 && (t.collapsed <==> Collapses(t.recoveries) == 1)
      && (forall i | 0 <= i < |t.recoveries| :: Permitted(t.recoveries[i], native))
      && (!native ==> !t.collapsed)
      && t.providerSleep <= 3 && t.round <= (if maxRounds > 0 then maxRounds else 0)
  {
    RoundsRestrained(START, o, maxRounds, native);
    var t := Rounds(START, o, maxRounds, native).0;
    if !native { NoCollapses(t.recoveries); }
  }

  /** When a provider error is recovered from: in rounds 1 and 2, after a transient error; or, in round 2
      of the native loop holding at least two tool results, after a context error. */
  lemma RecoversExactly(s: Loop, o: Outside, f: Flags, native: bool)
    requires s.round >= 1
    requires Restrained(s.(round := s.round - 1), native) && Held(s.messages, s.round - 1, native)
    ensures Recover(s, o, f, native).1 == Continue <==>
      s.round <= 2 && (f.transient || (f.overflow && native && s.round == 2 && |s.messages| >= 5))
  {
    hide Restrained;
  }

  // ----- both recoveries do fire

  const TRANSIENT := Flags(true, false, false, false)

  const OVERFLOW := Flags(false, false, true, false)

  /** The provider fails once, transiently, and then answers. */
  function FailsOnce(): Outside {
    Outside(t => Ran, t => if t == 0 then ProviderRaised(TRANSIENT) else Answered(true, true, []), false)
  }

  lemma BackoffFires(maxRounds: int, native: bool)
    requires maxRounds >= 2
    ensures
      var (t, returned) := Rounds(START, FailsOnce(), maxRounds, native);
      returned && t.recoveries == [Backoff(1)] && t.providerSleep == 1
  {
    var o := FailsOnce();
    var (s1, next) := Turn(START, o, native);
    assert next == Continue && s1.recoveries == [] + [Backoff(1)] && s1.tick == 1;
    assert Turn(s1, o, native).1 == Return;
    assert Rounds(START, o, maxRounds, native) == Rounds(s1, o, maxRounds, native);
  }

  /** The provider asks for two tools, fails on the context, and then answers. */
  function Overflows(): Outside {
    Outside(t => Ran,
            t => if t == 0 then Answered(true, true, ["a", "b"]) else if t == 3 then ProviderRaised(OVERFLOW)
                 else Answered(true, true, []), false)
  }

  lemma OverflowsTools()
    ensures
      var s := START.(round := 1, tick := 1, messages := [System, User, Assistant]);
      var t := RunTools(s, Overflows(), ["a", "b"], true);
      t.tick == 3 && t.failed == []
  {
    var o, s := Overflows(), START.(round := 1, tick := 1, messages := [System, User, Assistant]);
    var s1 := RunTool(s, o, "a", 0).(messages := [System, User, Assistant, Tool]);
    assert s1.tick == 2 && s1.counts == map[];
    assert ["a", "b"][1..] == ["b"] && ["b"][1..] == [];
    assert RunTools(s, o, ["a", "b"], true) == RunTools(s1, o, ["b"], true);
    var s2 := RunTool(s1, o, "b", 0).(messages := s1.messages + [Tool]);
    assert RunTools(s1, o, ["b"], true) == s2;
  }

  lemma CollapseFires(maxRounds: int)
    requires maxRounds >= 3
    ensures
      var (t, returned) := Rounds(START, Overflows(), maxRounds, true);
      returned && t.collapsed && t.recoveries == [Collapse(2, [System, User, Assistant, Tool, Tool])]
  {
    hide RunTools, Rounds;
    var o, s := Overflows(), START.(round := 1, tick := 1, messages := [System, User, Assistant]);
    assert START.messages + [Assistant] == [System, User, Assistant];
    ToolsKeepRound(s, o, ["a", "b"], true);
    OverflowsTools();
    var (s1, next1) := Turn(START, o, true);
    assert s1 == RunTools(s, o, ["a", "b"], true) && next1 == Continue;
    assert s1.messages == [System, User, Assistant, Tool, Tool];
    var (s2, next2) := Turn(s1, o, true);
    assert next2 == Continue && s2.collapsed && s2.recoveries == [] + [Collapse(2, s1.messages)] && s2.tick == 4;
    assert s2.failed == [];
    assert Turn(s2, o, true) == (s2.(round := 3, tick := 5), Return);
    RoundsContinue(START, o, maxRounds);
    RoundsContinue(s1, o, maxRounds);
    RoundsContinue(s2, o, maxRounds);
  }

  lemma RoundsContinue(s: Loop, o: Outside, maxRounds: int)
    requires CanRetry(s, maxRounds)
    ensures
      var (t, next) := Turn(s, o, true);
      Rounds(s, o, maxRounds, true) == if next == Continue then Rounds(t, o, maxRounds, true) else (t, next == Return)
  {
    hide Turn;
  }

  lemma {:induction false} NoCollapses(rs: seq<Recovery>)
    requires forall i | 0 <= i < |rs| :: Permitted(rs[i], false)
    ensures Collapses(rs) == 0
  {
    if rs != [] {
      assert Permitted(rs[|rs| - 1], false);
      NoCollapses(rs[..|rs| - 1]);
    }
  }

  // ----- what a command costs

  /** The sum of `f` over the retry counters. */
  ghost function SumBy(counts: map<Key, nat>, f: nat -> nat): nat
    decreases counts.Keys
  {
    if counts == map[] then 0
    else
      var k :| k in counts;
      f(counts[k]) + SumBy(counts - {k}, f)
  }

  lemma {:induction false} SumWithout(counts: map<Key, nat>, f: nat -> nat, k: Key)
    requires k in counts
    ensures SumBy(counts, f) == f(counts[k]) + SumBy(counts - {k}, f)
    decreases counts.Keys
  {
    var p :| p in counts && SumBy(counts, f) == f(counts[p]) + SumBy(counts - {p}, f);
    if p != k {
      SumWithout(counts - {p}, f, k);
      SumWithout(counts - {k}, f, p);
      assert counts - {p} - {k} == counts - {k} - {p};
    }
  }

  lemma SumUpdated(counts: map<Key, nat>, f: nat -> nat, k: Key, v: nat)
    requires f(0) == 0
    ensures SumBy(counts[k := v], f) == SumBy(counts, f) - f(Count(counts, k)) + f(v)
  {
    SumWithout(counts[k := v], f, k);
    assert counts[k := v] - {k} == counts - {k};
    if k in counts {
      SumWithout(counts, f, k);
    } else {
      assert counts - {k} == counts;
    }
  }

  function Itself(): nat -> nat {
    (n: nat) => n
  }

  /** The most that `n` backoffs of one key can sleep. */
  function Slept(): nat -> nat {
    (n: nat) => if n == 0 then 0 else if n == 1 then 1 else if n == 2 then 3 else 7
  }

  function ToolFailures(failed: seq<Failure>): nat {
    if failed == [] then 0
    else ToolFailures(failed[..|failed| - 1]) + if failed[|failed| - 1].ToolFailed? then 1 else 0
  }

  lemma OneMoreFailure(failed: seq<Failure>, f: Failure)
    ensures ToolFailures(failed + [f]) == ToolFailures(failed) + if f.ToolFailed? then 1 else 0
  {
    assert (failed + [f])[..|failed|] == failed;
  }

  /** Every tool execution succeeded, was repeated, or was reported as failed; no key is retried
      more than three times; sleeps are within what the counters allow. */
  ghost predicate Balanced(executions: nat, toolCalls: nat, counts: map<Key, nat>, toolFailures: nat, sleep: nat) {
    && executions == toolCalls + SumBy(counts, Itself()) + toolFailures
    && sleep <= SumBy(counts, Slept())
    && forall k | k in counts :: 1 <= counts[k] <= 3
  }

  ghost predicate Accounted(s: Loop) {
    Balanced(|s.executed|, s.toolCalls, s.counts, ToolFailures(s.failed), s.toolSleep)
  }

  lemma RetryBalanced(executions: nat, toolCalls: nat, counts: map<Key, nat>, toolFailures: nat, sleep: nat,
                      key: Key, pause: nat)
    requires Balanced(executions, toolCalls, counts, toolFailures, sleep)
    requires Count(counts, key) < 3 && pause <= Delay(Count(counts, key))
    ensures Balanced(executions + 1, toolCalls, counts[key := Count(counts, key) + 1], toolFailures, sleep + pause)
  {
    SumUpdated(counts, Itself(), key, Count(counts, key) + 1);
    SumUpdated(counts, Slept(), key, Count(counts, key) + 1);
  }

  /** From `s` to `t` retry counters only grew, and no key that was exhausted at `s` has been executed. */
  ghost predicate Proceeds(s: Loop, t: Loop) {
    && (forall k :: Count(s.counts, k) <= Count(t.counts, k))
    && s.executed <= t.executed
    && forall i | |s.executed| <= i < |t.executed| :: Count(s.counts, t.executed[i]) < 3
  }

  lemma ProceedsTransitively(s: Loop, t: Loop, u: Loop)
    requires Proceeds(s, t) && Proceeds(t, u)
    ensures Proceeds(s, u)
  {
    forall i | |s.executed| <= i < |u.executed| ensures Count(s.counts, u.executed[i]) < 3 {
      if i < |t.executed| { assert t.executed[i] == u.executed[i]; }
    }
  }

  lemma AttemptProceeds(s: Loop, o: Outside, key: Key, current: nat)
    requires current == Count(s.counts, key) < 3
    ensures
      var (t, again) := ToolAttempt(s, o, key, current);
      && Proceeds(s, t) && |t.executed| == |s.executed| + 1
      && (again ==> Count(t.counts, key) == current + 1)
  {
    hide RecoveryStrategy;
  }

  lemma AttemptAccounted(s: Loop, o: Outside, key: Key, current: nat)
    requires Accounted(s) && current == Count(s.counts, key) < 3
    ensures Accounted(ToolAttempt(s, o, key, current).0)
  {
    hide SumBy, RecoveryStrategy, ToolFailures, Itself, Slept;
    if o.tool(s.tick).ToolRaised? {
      var f := o.tool(s.tick).flags;
      var pause := if RecoveryStrategy(f, current) == RetryWithBackoff then Delay(current) else 0;
      RetryBalanced(|s.executed|, s.toolCalls, s.counts, ToolFailures(s.failed), s.toolSleep, key, pause);
      OneMoreFailure(s.failed, ToolFailed(key, f));
    }
  }

  lemma {:induction false} ToolAccounted(s: Loop, o: Outside, key: Key, current: nat)
    requires Accounted(s) && current == Count(s.counts, key)
    ensures
      var t := RunTool(s, o, key, current);
      && Accounted(t) && Proceeds(s, t) && |t.executed| <= |s.executed| + 3 - current
      && (current == 3 ==> t == s)
    decreases 3 - current
  {
    assert current <= 3;
    if current < 3 {
      AttemptAccounted(s, o, key, current);
      AttemptProceeds(s, o, key, current);
      hide ToolAttempt, Accounted, Proceeds;
      var (t, again) := ToolAttempt(s, o, key, current);
      if again {
        ToolAccounted(t, o, key, current + 1);
        ProceedsTransitively(s, t, RunTool(t, o, key, current + 1));
      }
    }
  }

  lemma {:induction false} ToolsAccounted(s: Loop, o: Outside, keys: seq<Key>, native: bool)
    requires Accounted(s)
    ensures
      var t := RunTools(s, o, keys, native);
      Accounted(t) && Proceeds(s, t) && |t.executed| <= |s.executed| + 3 * |keys|
    decreases |keys|
  {
    hide RunTool;
    if keys != [] {
      var s1 := RunTool(s, o, keys[0], Count(s.counts, keys[0]));
      ToolAccounted(s, o, keys[0], Count(s.counts, keys[0]));
      var s2 := if native then s1.(messages := s1.messages + [Tool]) else s1;
      ToolsAccounted(s2, o, keys[1..], native);
      ProceedsTransitively(s, s2, RunTools(s2, o, keys[1..], native));
    }
  }

  lemma RecoverAccounted(s: Loop, o: Outside, f: Flags, native: bool)
    requires Accounted(s)
    ensures Accounted(Recover(s, o, f, native).0) && Recover(s, o, f, native).0.counts == s.counts
    ensures Recover(s, o, f, native).0.executed == s.executed
  {
    hide Balanced, ToolFailures, RecoveryStrategy;
    OneMoreFailure(s.failed, ProviderFailed(f));
  }

  lemma TurnAccounted(s: Loop, o: Outside, native: bool)
    requires Accounted(s)
    ensures Accounted(Turn(s, o, native).0) && Proceeds(s, Turn(s, o, native).0)
  {
    hide RunTools, Recover, Balanced, ToolFailures;
    var s1 := s.(round := s.round + 1, tick := s.tick + 1);
    match o.provider(s.tick) {
      case ProviderRaised(f) => RecoverAccounted(s1, o, f, native);
      case Answered(success, hasContent, calls) =>
        ToolsAccounted(s1.(messages := s1.messages + [Assistant]), o, calls, native);
    }
  }

  lemma {:induction false} RoundsAccounted(s: Loop, o: Outside, maxRounds: int, native: bool)
    requires Accounted(s)
    ensures Accounted(Rounds(s, o, maxRounds, native).0)
    ensures Proceeds(s, Rounds(s, o, maxRounds, native).0)
    decreases maxRounds - s.round
  {
    hide Turn;
    if CanRetry(s, maxRounds) {
      TurnAccounted(s, o, native);
      TurnCountsRound(s, o, native);
      var (t, next) := Turn(s, o, native);
      if next == Continue {
        RoundsAccounted(t, o, maxRounds, native);
        ProceedsTransitively(s, t, Rounds(t, o, maxRounds, native).0);
      }
    }
  }

  lemma StartAccounted()
    ensures Accounted(START)
  {
  }

  lemma {:induction false} SleepPerKey(counts: map<Key, nat>)
    requires forall k | k in counts :: 1 <= counts[k] <= 3
    ensures SumBy(counts, Slept()) <= 7 * |counts|
    decreases counts.Keys
  {
    if counts != map[] {
      var p :| p in counts && SumBy(counts, Slept()) == Slept()(counts[p]) + SumBy(counts - {p}, Slept());
      assert (counts - {p}).Keys == counts.Keys - {p};
      SleepPerKey(counts - {p});
    }
  }

  /** Over a whole command: every registry execution is a counted tool call, a counted retry, or a
      reported tool failure; a key's counter never passes 3; tools sleep at most 7 seconds for each
      key that was ever retried. */
  lemma WorkAccounting(o: Outside, maxRounds: int, native: bool)
    ensures
      var t := Rounds(START, o, maxRounds, native).0;
      && |t.executed| == t.toolCalls + SumBy(t.counts, Itself()) + ToolFailures(t.failed)
      && (forall k | k in t.counts :: 1 <= t.counts[k] <= 3)
      && t.toolSleep <= 7 * |t.counts|
  {
    hide *;
    StartAccounted();
    RoundsAccounted(START, o, maxRounds, native);
    CostOf(Rounds(START, o, maxRounds, native).0);
  }

  lemma CostOf(t: Loop)
    requires Accounted(t)
    ensures |t.executed| == t.toolCalls + SumBy(t.counts, Itself()) + ToolFailures(t.failed)
    ensures forall k | k in t.counts :: 1 <= t.counts[k] <= 3
    ensures t.toolSleep <= 7 * |t.counts|
  {
    SleepPerKey(t.counts);
  }

  /** Between `s` and `t` the key was not executed. */
  ghost predicate NotExecuted(s: Loop, t: Loop, key: Key) {
    s.executed <= t.executed && forall i | |s.executed| <= i < |t.executed| :: t.executed[i] != key
  }

  /** Once a key's retries are used up, none of the executions in the rest of the reply's calls or in
      the rest of the command is of that key, whatever is asked for. */
  lemma ExhaustedIsNeverExecuted(s: Loop, o: Outside, maxRounds: int, native: bool, key: Key, calls: seq<Key>)
    requires Accounted(s) && Count(s.counts, key) == 3
    ensures NotExecuted(s, RunTools(s, o, calls, native), key)
    ensures Count(RunTools(s, o, calls, native).counts, key) == 3
    ensures NotExecuted(s, Rounds(s, o, maxRounds, native).0, key)
    ensures Count(Rounds(s, o, maxRounds, native).0.counts, key) == 3
  {
    hide Rounds, RunTools, SumBy;
    ToolsAccounted(s, o, calls, native);
    RoundsAccounted(s, o, maxRounds, native);
  }
}
