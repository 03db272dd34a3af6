/** The limiter's objects, updated in place, proved to answer as `RateLimiting.Serve` does. */
module ApiRateLimiter {
  import opened Collections
  import opened RateLimiting
  import opened RateDecisions

  class RateLimitState {
    var requests: int
    var windowStart: real
    var dailyRequests: int
    var dailyReset: real

    constructor ()
      ensures View() == FRESH
    {
      requests, windowStart, dailyRequests, dailyReset := 0, 0.0, 0, 0.0;
    }

    ghost function View(): State
      reads this
    {
      State(Counter(requests, windowStart), Counter(dailyRequests, dailyReset))
    }

    /** Resets each counter whose window has expired. */
    method ResetIfNeeded(window: int, now: real)
      modifies this
      ensures View() == RefreshBoth(old(View()), window, now)
      ensures if now - old(windowStart) >= window as real then requests == 0 && windowStart == now
              else requests == old(requests) && windowStart == old(windowStart)
      ensures if now - old(dailyReset) >= 86400.0 then dailyRequests == 0 && dailyReset == now
              else dailyRequests == old(dailyRequests) && dailyReset == old(dailyReset)
    {
      if now - windowStart >= window as real {
        requests := 0;
        windowStart := now;
      }
      if now - dailyReset >= DAY {
        dailyRequests := 0;
        dailyReset := now;
      }
    }
  }

  class RateLimiter {
    const config: Config
    var states: map<string, RateLimitState>
    var lastCleanup: real

    /** No two keys share a state object. */
    ghost predicate Valid()
      reads this
    {
      forall k, k' | k in states && k' in states && k != k' :: states[k] != states[k']
    }

    ghost function View(): Limiter
      reads this, states.Values
    {
      Limiter(map k | k in states :: states[k].View(), lastCleanup)
    }

    constructor (config: Config, now: real)
      ensures Valid() && View() == Limiter(map[], now) && this.config == config && states == map[]
    {
      this.config, states, lastCleanup := config, map[], now;
    }

    /** `self._states[key]`: creates the state on first use. */
    method Lookup(key: string) returns (state: RateLimitState)
      requires Valid()
      modifies this`states
      ensures Valid() && key in states && states[key] == state
      ensures state.View() == StateOf(old(View()), key)
      ensures View() == old(View()).(states := old(View()).states[key := state.View()])
      ensures fresh(states.Values - old(states.Values))
    {
      if key !in states {
        var created := new RateLimitState();
        states := states[key := created];
      }
      state := states[key];
      assert View().states == old(View()).states[key := state.View()];
    }

    lemma Update(key: string, before: Limiter)
      requires Valid() && key in states && before.lastCleanup == lastCleanup
      requires before.states.Keys == states.Keys
      requires forall k | k in states && k != key :: before.states[k] == states[k].View()
      ensures View() == before.(states := before.states[key := states[key].View()])
    {
      assert View().states == before.states[key := states[key].View()];
    }

    /** Looks the key's state up and refreshes it. */
    method Touch(key: string, window: int, now: real) returns (state: RateLimitState)
      requires Valid()
      modifies this`states, states.Values
      ensures Valid() && key in states && states[key] == state && fresh(states.Values - old(states.Values))
      ensures state.View() == RefreshBoth(StateOf(old(View()), key), window, now)
      ensures View() == old(View()).(states := old(View()).states[key := state.View()])
    {
      state := Lookup(key);
      ghost var l := View();
      state.ResetIfNeeded(window, now);
      Update(key, l);
      assert View().states == old(View()).states[key := state.View()];
    }

    /** Adds the cost of an admitted request. */
    method Admit(key: string, cost: int)
      requires Valid() && key in states
      modifies states[key]
      ensures states[key].View() == Charge(old(states[key].View()), cost)
      ensures View() == old(View()).(states := old(View()).states[key := states[key].View()])
    {
      states[key].requests := states[key].requests + cost;
      states[key].dailyRequests := states[key].dailyRequests + cost;
      Update(key, old(View()));
    }

    method CheckRateLimit(clientKey: string, endpoint: string, cost: int, requests: Option<int>,
                          window: Option<int>, now: real, later: real) returns (answer: Answer)
      requires Valid()
      modifies this`states, this`lastCleanup, states.Values
      ensures Valid() && fresh(states.Values - old(states.Values))
      ensures
        var r := Resolve(config, clientKey, endpoint, cost, requests, window, now, later);
        (View(), answer) == Serve(old(View()), config, r, true)
      ensures Decides(old(View()), View(), answer, config, KeyOf(clientKey, endpoint), cost,
                      WindowLimit(config, endpoint, requests), DailyLimit(config, endpoint),
                      WindowOf(config, window), now, later)
    {
      var r := Resolve(config, clientKey, endpoint, cost, requests, window, now, later);
      hide RateLimiter.View, Cleanup, Resolve, Decides;
      ghost var l := View();
      CheckDecides(l, config, clientKey, endpoint, cost, requests, window, now, later);
      var state := Touch(r.key, r.window, r.now);
      ghost var st := state.View();
      if state.requests + r.cost > Burst(config, r.rpm) {
        return Denied(Max(1, Trunc(r.window as real - (r.later - state.windowStart))));
      }
      if state.dailyRequests + r.cost > r.rpd {
        return Denied(Max(1, Trunc(DAY - (r.later - state.dailyReset))));
      }
      Admit(r.key, r.cost);
      assert l.states[r.key := st][r.key := Charge(st, r.cost)] == l.states[r.key := Charge(st, r.cost)];
      var remaining := r.rpm - state.requests;
      MaybeCleanup(r.later);
      answer := Allowed(Max(0, remaining));
    }

    /** Deletes the states neither of whose windows began within the last day. */
    method MaybeCleanup(now: real)
      requires Valid()
      modifies this`states, this`lastCleanup
      ensures Valid() && View() == Cleanup(old(View()), config, now) && states.Values <= old(states.Values)
      ensures Swept(config, old(View()), View(), now)
    {
      if now - lastCleanup < config.cleanupInterval { return; }
      ghost var l := View();
      var cutoff := now - DAY;
      var staleKeys := set k | k in states && states[k].windowStart < cutoff && states[k].dailyReset < cutoff;
      lastCleanup := now;
      states := states - staleKeys;
      assert View().states == Cleanup(l, config, now).states;
    }

    /** Forgets the state of exactly one key: a client's states for named endpoints, whose keys extend
        the client's, are not touched. */
    method ResetClient(clientKey: string)
      requires Valid()
      modifies this`states
      ensures Valid() && View() == old(View()).(states := old(View()).states - {clientKey})
    {
      if clientKey in states {
        states := states - {clientKey};
      }
      assert View().states == old(View()).states - {clientKey};
    }
  }
}
