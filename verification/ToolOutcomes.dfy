/** How tool calls, provider errors and the tool-calling loop end, told from the answers of the tools and
the provider alone. */
module ToolOutcomes {
  import opened ToolLoop

  // ----- one tool call

  /** The attempt after `i` retries raised an error that is tried again: a transient one; at first also a
      tool bug that is no context error; or one that is nothing of all this. */
  predicate TriedAgain(a: ToolAnswer, i: nat) {
    && a.ToolRaised?
    && var f := a.flags;
    || f.transient
    || (i == 0 && f.toolBug && !f.overflow)
    || (!f.toolBug && !f.overflow && !f.permission)
  }

  /** Of a call made at `tick` after `c` retries, the attempt after `i` more is tried again. */
  predicate AgainAt(o: Outside, tick: nat, c: nat, i: nat) {
    TriedAgain(o.tool(tick + i), c + i)
  }

  /** How often a tool called at `tick` after `c` retries is tried again. */
  function Retries(o: Outside, tick: nat, c: nat): (m: nat)
    requires c <= 3
    ensures c + m <= 3
    ensures forall i | 0 <= i < m :: AgainAt(o, tick, c, i)
    ensures c + m < 3 ==> !AgainAt(o, tick, c, m)
    decreases 3 - c
  {
    if c == 3 || !TriedAgain(o.tool(tick), c) then 0
    else
      var m := Retries(o, tick + 1, c + 1);
      assert forall i | 1 <= i <= m + 1 :: AgainAt(o, tick + 1, c + 1, i - 1) == AgainAt(o, tick, c, i);
      m + 1
  }

  /** The sleep after the attempt with `c` retries used: one, two and four seconds after transient errors. */
  function Pause(a: ToolAnswer, c: nat): nat {
    if a.Ran? || !a.flags.transient then 0 else if c == 0 then 1 else if c == 1 then 2 else 4
  }

  function Pauses(o: Outside, tick: nat, c: nat, m: nat): nat
    decreases m
  {
    if m == 0 then 0 else Pause(o.tool(tick), c) + Pauses(o, tick + 1, c + 1, m - 1)
  }

  function Times(key: Key, n: nat): seq<Key> {
    seq(n, _ => key)
  }

  /** `key` has been executed `n` times with the given sleep, after which its counter is `retries`. */
  function Executed(s: Loop, key: Key, n: nat, sleep: nat, retries: nat): Loop {
    s.(tick := s.tick + n, executed := s.executed + Times(key, n), toolSleep := s.toolSleep + sleep,
       counts := if retries > Count(s.counts, key) then s.counts[key := retries] else s.counts)
  }

  lemma ExecutedMore(s: Loop, key: Key, sleep: nat, retries: nat, n: nat, more: nat, total: nat)
    requires Count(s.counts, key) < retries <= total
    ensures Executed(Executed(s, key, 1, sleep, retries), key, n, more, total)
      == Executed(s, key, n + 1, sleep + more, total)
  {
    assert Times(key, 1) + Times(key, n) == Times(key, n + 1);
    assert s.executed + Times(key, 1) + Times(key, n) == s.executed + Times(key, n + 1);
    assert s.counts[key := retries][key := total] == s.counts[key := total];
  }

  lemma OneAttempt(s: Loop, o: Outside, key: Key, c: nat)
    requires Count(s.counts, key) == c < 3
    ensures
      var (t, again) := ToolAttempt(s, o, key, c);
      && (again <==> TriedAgain(o.tool(s.tick), c))
      && if again then t == Executed(s, key, 1, Pause(o.tool(s.tick), c), c + 1)
         else t == match o.tool(s.tick)
                   case Ran => Executed(s, key, 1, 0, c).(toolCalls := s.toolCalls + 1)
                   case ToolRaised(f) => Executed(s, key, 1, 0, c).(failed := s.failed + [ToolFailed(key, f)])
  {
    assert Times(key, 1) == [key];
  }

  /** How a call made after `c` retries ends that is tried again `m` times: with the retries used up, nothing
      else happens; otherwise the last attempt is counted as a tool call if it ran, and reported as failed if
      it raised. */
  function Ended(s: Loop, o: Outside, key: Key, c: nat, m: nat, sleep: nat): Loop
    requires c + m <= 3
  {
    if c + m == 3 then Executed(s, key, m, sleep, 3)
    else
      var t := Executed(s, key, m + 1, sleep, c + m);
      match o.tool(s.tick + m)
      case Ran => t.(toolCalls := s.toolCalls + 1)
      case ToolRaised(f) => t.(failed := s.failed + [ToolFailed(key, f)])
  }

  lemma ExecutedKeeps(s: Loop, key: Key, n: nat, sleep: nat, retries: nat)
    ensures
      var t := Executed(s, key, n, sleep, retries);
      t.tick == s.tick + n && t.toolCalls == s.toolCalls && t.failed == s.failed
      && (retries > Count(s.counts, key) ==> Count(t.counts, key) == retries)
  {
  }

  lemma EndedMore(s: Loop, o: Outside, key: Key, c: nat, p: nat, m: nat, sleep: nat)
    requires Count(s.counts, key) == c && c + 1 + m <= 3
    ensures Ended(Executed(s, key, 1, p, c + 1), o, key, c + 1, m, sleep) == Ended(s, o, key, c, m + 1, p + sleep)
  {
    hide Executed, Count;
    ExecutedMore(s, key, p, c + 1, if c + 1 + m == 3 then m else m + 1, sleep, c + 1 + m);
    ExecutedKeeps(s, key, 1, p, c + 1);
  }

  lemma EndedAtOnce(s: Loop, o: Outside, key: Key, c: nat)
    requires Count(s.counts, key) == c <= 3
    requires c < 3 ==> !TriedAgain(o.tool(s.tick), c)
    ensures RunTool(s, o, key, c) == Ended(s, o, key, c, 0, 0)
  {
    if c == 3 {
      assert s.executed + Times(key, 0) == s.executed;
    } else {
      OneAttempt(s, o, key, c);
    }
  }

  /** A tool called after `c` retries of its key is executed until an attempt is not tried again or three
      retries are used, and then ends as that attempt did. */
  lemma {:induction false} ToolOutcome(s: Loop, o: Outside, key: Key, c: nat)
    requires Count(s.counts, key) == c <= 3
    ensures
      var m := Retries(o, s.tick, c);
      RunTool(s, o, key, c) == Ended(s, o, key, c, m, Pauses(o, s.tick, c, m))
    decreases 3 - c
  {
    hide *;
    RetriesNext(o, s.tick, c);
    if c == 3 || !TriedAgain(o.tool(s.tick), c) {
      EndedAtOnce(s, o, key, c);
    } else {
      var p := Pause(o.tool(s.tick), c);
      var t := Executed(s, key, 1, p, c + 1);
      RunAgain(s, o, key, c);
      ExecutedKeeps(s, key, 1, p, c + 1);
      ToolOutcome(t, o, key, c + 1);
      var m := Retries(o, s.tick + 1, c + 1);
      EndedMore(s, o, key, c, p, m, Pauses(o, t.tick, c + 1, m));
    }
  }

  lemma RetriesNext(o: Outside, tick: nat, c: nat)
    requires c <= 3
    ensures
      var m := Retries(o, tick, c);
      if c == 3 || !TriedAgain(o.tool(tick), c) then m == 0 && Pauses(o, tick, c, 0) == 0
      else
        var n := Retries(o, tick + 1, c + 1);
        m == n + 1 && Pauses(o, tick, c, m) == Pause(o.tool(tick), c) + Pauses(o, tick + 1, c + 1, n)
  {
    hide TriedAgain, Pause;
  }

  lemma RunAgain(s: Loop, o: Outside, key: Key, c: nat)
    requires Count(s.counts, key) == c < 3 && TriedAgain(o.tool(s.tick), c)
    ensures RunTool(s, o, key, c) == RunTool(Executed(s, key, 1, Pause(o.tool(s.tick), c), c + 1), o, key, c + 1)
  {
    OneAttempt(s, o, key, c);
    hide ToolAttempt, Executed, Pause, TriedAgain;
  }

  // ----- the calls of one reply

  /** A moment of handling a reply with `keys`: `i` of its calls have been made. */
  function AfterCalls(s: Loop, o: Outside, keys: seq<Key>, native: bool, i: nat): Loop
    requires i <= |keys|
  {
    RunTools(s, o, keys[..i], native)
  }

  /** Every call of a reply is made, in order, each after the retries its key has used by then; the native
      loop answers each with one message. */
  lemma {:induction false} EveryCallIsMade(s: Loop, o: Outside, keys: seq<Key>, native: bool, i: nat)
    requires i < |keys|
    ensures
      var t := AfterCalls(s, o, keys, native, i);
      var u := RunTool(t, o, keys[i], Count(t.counts, keys[i]));
      AfterCalls(s, o, keys, native, i + 1) == if native then u.(messages := u.messages + [Tool]) else u
    decreases i
  {
    hide RunTool;
    if i == 0 {
      var one := keys[..1];
      assert keys[..0] == [] && one[0] == keys[0] && one[1..] == [];
      var u := RunTool(s, o, keys[0], Count(s.counts, keys[0]));
      assert RunTools(s, o, one, native)
        == RunTools(if native then u.(messages := u.messages + [Tool]) else u, o, one[1..], native);
    } else {
      var s1 := RunTool(s, o, keys[0], Count(s.counts, keys[0]));
      var s2 := if native then s1.(messages := s1.messages + [Tool]) else s1;
      EveryCallIsMade(s2, o, keys[1..], native, i - 1);
      assert keys[..i][1..] == keys[1..][..i - 1] && keys[..i + 1][1..] == keys[1..][..i];
      assert keys[..i][0] == keys[0] == keys[..i + 1][0] && keys[1..][i - 1] == keys[i];
    }
  }

  lemma AllCallsMade(s: Loop, o: Outside, keys: seq<Key>, native: bool)
    ensures AfterCalls(s, o, keys, native, 0) == s
    ensures AfterCalls(s, o, keys, native, |keys|) == RunTools(s, o, keys, native)
  {
    assert keys[..|keys|] == keys;
  }

  // ----- one turn

  /** A provider error is recovered from in the first two rounds: a transient one by a sleep of one second,
      then two; a context error with more than four messages held by keeping the first two and the last.
      Otherwise it is reported and the loop is left.  No error makes the loop switch the model. */
  lemma RecoverOutcome(s: Loop, o: Outside, f: Flags, native: bool)
    requires s.round >= 1
    ensures
      var (t, next) := Recover(s, o, f, native);
      if s.round < 3 && f.transient then
        && next == Continue
        && t == s.(providerSleep := s.providerSleep + s.round, recoveries := s.recoveries + [Backoff(s.round)])
      else if s.round < 3 && f.overflow && |s.messages| >= 5 then
        && next == Continue
        && t == s.(messages := s.messages[..2] + s.messages[|s.messages| - 1..], collapsed := true,
                   recoveries := s.recoveries + [Collapse(s.round, s.messages)])
      else next == Break && t == s.(failed := s.failed + [ProviderFailed(f)])
  {
    if |s.messages| >= 5 {
      assert s.messages[..2] + s.messages[|s.messages| - 1..]
        == [s.messages[0], s.messages[1], s.messages[|s.messages| - 1]];
    }
  }

  /** The reply ends the loop with a response. */
  predicate IsFinal(r: Reply) {
    r == Answered(true, true, [])
  }

  /** The reply has its calls made: a native one whenever it has any, one in prose if it is usable. */
  predicate HasCalls(r: Reply, native: bool) {
    r.Answered? && r.calls != [] && (native || (r.success && r.hasContent))
  }

  /** A turn asks the provider once and counts a round.  It returns exactly on a successful reply with
      content and no calls; a reply with calls has them made between an assistant message and, in prose, a
      user message; an error is recovered from or ends the loop; any other reply ends the loop. */
  lemma TurnOutcome(s: Loop, o: Outside, native: bool)
    ensures
      var r, (t, next) := o.provider(s.tick), Turn(s, o, native);
      var s1 := s.(round := s.round + 1, tick := s.tick + 1);
      && (next == Return <==> IsFinal(r))
      && (r.ProviderRaised? ==> (t, next) == Recover(s1, o, r.flags, native))
      && (HasCalls(r, native) ==>
            var u := RunTools(s1.(messages := s.messages + [Assistant]), o, r.calls, native);
            next == Continue && t == if native then u else u.(messages := u.messages + [User]))
      && (r.Answered? && !HasCalls(r, native) ==> t == s1 && (next == Return || next == Break))
  {
    hide RunTools, RecoveryStrategy;
  }

  // ----- the loop

  /** `ss` are the states between the turns of a loop from `s`. */
  ghost predicate Turns(s: Loop, o: Outside, maxRounds: int, native: bool, ss: seq<Loop>) {
    && |ss| > 0 && ss[0] == s
    && (forall i | 0 <= i < |ss| - 1 ::
          && ss[i].round < maxRounds && |ss[i].failed| < 5
          && ss[i + 1] == Turn(ss[i], o, native).0)
    && (forall i | 0 <= i < |ss| - 2 :: Turn(ss[i], o, native).1 == Continue)
  }

  /** How the turns ended: with a response, with a reply or an error that ends the loop, or with the rounds
      used up or five failures. */
  ghost predicate Finished(o: Outside, maxRounds: int, native: bool, ss: seq<Loop>, returned: bool)
    requires |ss| > 0
  {
    var n, t := |ss|, ss[|ss| - 1];
    && (returned <==> n > 1 && IsFinal(o.provider(ss[n - 2].tick)))
    && (!returned ==> t.round >= maxRounds || |t.failed| >= 5 || (n > 1 && Turn(ss[n - 2], o, native).1 == Break))
  }

  /** The loop takes turns while rounds are left and fewer than five failures have been reported; it returns
      a response exactly when the last reply is a successful one with content and no calls. */
  lemma {:induction false} LoopOutcome(s: Loop, o: Outside, maxRounds: int, native: bool) returns (ss: seq<Loop>)
    ensures Turns(s, o, maxRounds, native, ss)
    ensures
      var (t, returned) := Rounds(s, o, maxRounds, native);
      ss[|ss| - 1] == t && Finished(o, maxRounds, native, ss, returned)
    decreases maxRounds - s.round
  {
    hide Turn, IsFinal;
    ss := [s];
    if CanRetry(s, maxRounds) {
      TurnCountsRound(s, o, native);
      TurnOutcome(s, o, native);
      var (t, next) := Turn(s, o, native);
      if next == Continue {
        var rest := LoopOutcome(t, o, maxRounds, native);
        ss := [s] + rest;
        TurnsCons(s, o, maxRounds, native, rest);
      } else {
        ss := [s, t];
      }
    }
  }

  lemma TurnsCons(s: Loop, o: Outside, maxRounds: int, native: bool, rest: seq<Loop>)
    requires CanRetry(s, maxRounds) && Turn(s, o, native).1 == Continue
    requires Turns(Turn(s, o, native).0, o, maxRounds, native, rest)
    ensures Turns(s, o, maxRounds, native, [s] + rest)
  {
    hide Turn;
    var ss := [s] + rest;
    forall i | 0 <= i < |ss| - 1 ensures
      ss[i].round < maxRounds && |ss[i].failed| < 5 && ss[i + 1] == Turn(ss[i], o, native).0
    {
      if i > 0 { assert ss[i] == rest[i - 1] && ss[i + 1] == rest[i]; }
    }
    forall i | 0 <= i < |ss| - 2 ensures Turn(ss[i], o, native).1 == Continue {
      if i > 0 { assert ss[i] == rest[i - 1]; }
    }
  }
}
