/** How the limiter decides one request, told from the configuration, the overrides and the counters alone. */
module RateDecisions {
  import opened Collections
  import opened RateLimiting

  /** `int(x)` is the integer next to `x` towards zero. */
  lemma TruncTowardsZero(x: real, n: int)
    ensures n == Trunc(x) <==>
      if x >= 0.0 then n as real <= x < n as real + 1.0 else n as real - 1.0 < x <= n as real
  {
  }

  // ----- the limits of a request

  /** An endpoint's requests are counted apart from the client's other requests. */
  function KeyOf(clientKey: string, endpoint: string): string {
    if endpoint == "" then clientKey else clientKey + ":" + endpoint
  }

  /** The limit for a window: the override, else the endpoint's own, else the default. */
  function WindowLimit(cfg: Config, endpoint: string, requests: Option<int>): int {
    match requests
    case Some(n) => n
    case None =>
      if endpoint in cfg.endpointLimits && cfg.endpointLimits[endpoint].0.Some?
      then cfg.endpointLimits[endpoint].0.value else cfg.defaultRpm
  }

  /** The limit for a day: the endpoint's own, else the default. */
  function DailyLimit(cfg: Config, endpoint: string): int {
    if endpoint in cfg.endpointLimits && cfg.endpointLimits[endpoint].1.Some?
    then cfg.endpointLimits[endpoint].1.value else cfg.defaultRpd
  }

  function WindowOf(cfg: Config, window: Option<int>): int {
    match window case Some(n) => n case None => cfg.windowSize
  }

  // ----- the counters a request meets

  /** The counters of `key`, each reset if its window is over. */
  function Met(l: Limiter, key: string, window: int, now: real): State {
    var st := if key in l.states then l.states[key] else State(Counter(0, 0.0), Counter(0, 0.0));
    State(if now - st.minute.start >= window as real then Counter(0, now) else st.minute,
          if now - st.daily.start >= 86400.0 then Counter(0, now) else st.daily)
  }

  ghost predicate Within(cfg: Config, st: State, cost: int, limit: int, daily: int) {
    st.minute.count + cost <= Trunc(limit as real * cfg.burst) && st.daily.count + cost <= daily
  }

  /** `before` and `after` differ at `key` alone, where `after` has `st`. */
  ghost predicate OnlyAt(before: Limiter, after: Limiter, key: string, st: State) {
    && after.lastCleanup == before.lastCleanup && key in after.states && after.states[key] == st
    && forall k | k != key ::
         && (k in after.states <==> k in before.states)
         && (k in before.states ==> after.states[k] == before.states[k])
  }

  /** When a cleanup is due, the states neither of whose windows began within the last day are gone. */
  ghost predicate Swept(cfg: Config, before: Limiter, after: Limiter, at: real) {
    var due := at - before.lastCleanup >= cfg.cleanupInterval;
    && after.lastCleanup == (if due then at else before.lastCleanup)
    && forall k ::
         && (k in after.states <==>
               k in before.states
               && !(due && before.states[k].minute.start < at - 86400.0 && before.states[k].daily.start < at - 86400.0))
         && (k in after.states ==> k in before.states && after.states[k] == before.states[k])
  }

  // ----- the decision

  /** A request is allowed exactly when with its cost both counters stay within their limits; it is then
      charged to both.  Otherwise nothing is charged, and it may be repeated when the window, or else the day,
      is over, but not within a second.  Only the state of its key changes, and stale states are swept when a
      request is allowed. */
  ghost predicate Decides(l: Limiter, after: Limiter, answer: Answer, cfg: Config, key: string, cost: int, limit: int,
                          daily: int, window: int, now: real, later: real)
  {
    var st := Met(l, key, window, now);
    && (answer.Allowed? <==> Within(cfg, st, cost, limit, daily))
    && match answer
       case Allowed(remaining) =>
         var charged := State(Counter(st.minute.count + cost, st.minute.start),
                              Counter(st.daily.count + cost, st.daily.start));
         && remaining == Max(0, limit - charged.minute.count)
         && exists mid :: OnlyAt(l, mid, key, charged) && Swept(cfg, mid, after, later)
       case Denied(retryAfter) =>
         && OnlyAt(l, after, key, st)
         && retryAfter ==
              if st.minute.count + cost > Trunc(limit as real * cfg.burst)
              then Max(1, Trunc(window as real - (later - st.minute.start)))
              else Max(1, Trunc(86400.0 - (later - st.daily.start)))
  }

  lemma CheckDecides(l: Limiter, cfg: Config, clientKey: string, endpoint: string, cost: int, requests: Option<int>,
                     window: Option<int>, now: real, later: real)
    ensures
      var r := Resolve(cfg, clientKey, endpoint, cost, requests, window, now, later);
      var (after, answer) := Serve(l, cfg, r, true);
      Decides(l, after, answer, cfg, KeyOf(clientKey, endpoint), cost, WindowLimit(cfg, endpoint, requests),
              DailyLimit(cfg, endpoint), WindowOf(cfg, window), now, later)
  {
    hide Trunc, Max;
    var r := Resolve(cfg, clientKey, endpoint, cost, requests, window, now, later);
    ResolvesTo(cfg, clientKey, endpoint, cost, requests, window, now, later);
    ServeDecides(l, cfg, r);
  }

  lemma ResolvesTo(cfg: Config, clientKey: string, endpoint: string, cost: int, requests: Option<int>,
                   window: Option<int>, now: real, later: real)
    ensures Resolve(cfg, clientKey, endpoint, cost, requests, window, now, later)
      == Request(KeyOf(clientKey, endpoint), cost, WindowLimit(cfg, endpoint, requests), DailyLimit(cfg, endpoint),
                 WindowOf(cfg, window), now, later)
  {
  }

  lemma ServeDecides(l: Limiter, cfg: Config, r: Request)
    ensures
      var (after, answer) := Serve(l, cfg, r, true);
      Decides(l, after, answer, cfg, r.key, r.cost, r.rpm, r.rpd, r.window, r.now, r.later)
  {
    hide Trunc, Max;
    var st := Met(l, r.key, r.window, r.now);
    assert st == RefreshBoth(StateOf(l, r.key), r.window, r.now);
    if Within(cfg, st, r.cost, r.rpm, r.rpd) {
      var charged := State(Counter(st.minute.count + r.cost, st.minute.start),
                           Counter(st.daily.count + r.cost, st.daily.start));
      var mid := l.(states := l.states[r.key := charged]);
      assert OnlyAt(l, mid, r.key, charged);
      CleanupSweeps(mid, cfg, r.later);
    }
  }

  lemma CleanupSweeps(l: Limiter, cfg: Config, at: real)
    ensures Swept(cfg, l, Cleanup(l, cfg, at), at)
  {
  }

  // ----- the default configuration

  const DEFAULTS := Config(60, 10000, 60, 1.5, 300.0, map[])

  /** Under the defaults a key that has been served `n` times in its open window is served again exactly up
      to the ninetieth time. */
  lemma DefaultsAllowNinety(l: Limiter, clientKey: string, endpoint: string, n: nat, now: real, later: real)
    requires KeyOf(clientKey, endpoint) in l.states
    requires
      var st := l.states[KeyOf(clientKey, endpoint)];
      st.minute.count == n && st.daily.count == n && now < st.minute.start + 60.0 && now < st.daily.start + 86400.0
    ensures
      var r := Resolve(DEFAULTS, clientKey, endpoint, 1, None, None, now, later);
      Serve(l, DEFAULTS, r, true).1.Allowed? <==> n < 90
  {
    hide Serve, Resolve, Swept, OnlyAt;
    CheckDecides(l, DEFAULTS, clientKey, endpoint, 1, None, None, now, later);
    TruncTowardsZero(60.0 * 1.5, 90);
  }
}
