/** The request limiter (`modules/api_rate_limiter.py`), on values.

Two fixed-window counters per key, one of the caller's window and one of a day.  Clock readings are
part of each request: `now` is read when the counters are refreshed, `later` when a retry delay or a
cleanup is computed. */
module RateLimiting {
  import opened Collections

  const DAY := 86400.0

  /** `endpointLimits` maps an endpoint to its own limits, where it has them. */
  datatype Config = Config(defaultRpm: int, defaultRpd: int, windowSize: int, burst: real, cleanupInterval: real,
                           endpointLimits: map<string, (Option<int>, Option<int>)>)

  datatype Counter = Counter(count: int, start: real)

  datatype State = State(minute: Counter, daily: Counter)

  datatype Limiter = Limiter(states: map<string, State>, lastCleanup: real)

  datatype Request = Request(key: string, cost: int, rpm: int, rpd: int, window: int, now: real, later: real)

  /** A call of `check_rate_limit` with its overrides, as a request. */
  function Resolve(cfg: Config, clientKey: string, endpoint: string, cost: int, requests: Option<int>,
                   window: Option<int>, now: real, later: real): Request {
    var limits := if endpoint in cfg.endpointLimits then cfg.endpointLimits[endpoint] else (None, None);
    var rpm := if limits.0.Some? then limits.0.value else cfg.defaultRpm;
    var rpd := if limits.1.Some? then limits.1.value else cfg.defaultRpd;
    Request(if endpoint != "" then clientKey + ":" + endpoint else clientKey, cost,
            if requests.Some? then requests.value else rpm, rpd,
            if window.Some? then window.value else cfg.windowSize, now, later)
  }

  datatype Answer = Denied(retryAfter: int) | Allowed(remaining: int)

  /** `int(x)`: towards zero. */
  function Trunc(x: real): int {
    if x >= 0.0 then x.Floor else -((-x).Floor)
  }

  function Max(a: int, b: int): int {
    if a >= b then a else b
  }

  /** The most one window admits. */
  function Burst(cfg: Config, rpm: int): int {
    Trunc(rpm as real * cfg.burst)
  }

  const FRESH := State(Counter(0, 0.0), Counter(0, 0.0))

  /** `reset_if_needed` for one of the two counters. */
  function Refresh(c: Counter, window: real, now: real): Counter {
    if now - c.start >= window then Counter(0, now) else c
  }

  function RefreshBoth(st: State, window: int, now: real): State {
    State(Refresh(st.minute, window as real, now), Refresh(st.daily, DAY, now))
  }

  function StateOf(l: Limiter, key: string): State {
    if key in l.states then l.states[key] else FRESH
  }

  function Charge(st: State, cost: int): State {
    State(st.minute.(count := st.minute.count + cost), st.daily.(count := st.daily.count + cost))
  }

  function Stale(st: State, at: real): bool {
    st.minute.start < at - DAY && st.daily.start < at - DAY
  }

  function Cleanup(l: Limiter, cfg: Config, at: real): Limiter {
    if at - l.lastCleanup < cfg.cleanupInterval then l
    else Limiter(map k | k in l.states && !Stale(l.states[k], at) :: l.states[k], at)
  }

  /** `check_rate_limit`; `cleaning` tells whether stale states are ever deleted. */
  function Serve(l: Limiter, cfg: Config, r: Request, cleaning: bool): (Limiter, Answer) {
    var st := RefreshBoth(StateOf(l, r.key), r.window, r.now);
    var touched := l.(states := l.states[r.key := st]);
    if st.minute.count + r.cost > Burst(cfg, r.rpm) then
      (touched, Denied(Max(1, Trunc(r.window as real - (r.later - st.minute.start)))))
    else if st.daily.count + r.cost > r.rpd then
      (touched, Denied(Max(1, Trunc(DAY - (r.later - st.daily.start)))))
    else
      var charged := l.(states := l.states[r.key := Charge(st, r.cost)]);
      (if cleaning then Cleanup(charged, cfg, r.later) else charged,
       Allowed(Max(0, r.rpm - (st.minute.count + r.cost))))
  }

  function ServeAll(l: Limiter, cfg: Config, rs: seq<Request>, cleaning: bool): (answers: seq<Answer>)
    ensures |answers| == |rs|
    decreases |rs|
  {
    if rs == [] then []
    else
      var (l1, a) := Serve(l, cfg, rs[0], cleaning);
      [a] + ServeAll(l1, cfg, rs[1..], cleaning)
  }

  /** A monotone clock, not before `t`. */
  ghost predicate Clocked(rs: seq<Request>, t: real) {
    && (forall i | 0 <= i < |rs| :: t <= rs[i].now <= rs[i].later)
    && forall i, j | 0 <= i < j < |rs| :: rs[i].later <= rs[j].now
  }

  lemma ClockedTail(rs: seq<Request>, t: real)
    requires rs != [] && Clocked(rs, t)
    ensures Clocked(rs[1..], rs[0].later) && t <= rs[0].now <= rs[0].later
  {
  }

  // ----- retrying

  /** The refusing counter: the window's when it is the reason, else the day's. */
  function Blocking(l: Limiter, cfg: Config, r: Request): (Counter, real) {
    var st := RefreshBoth(StateOf(l, r.key), r.window, r.now);
    if st.minute.count + r.cost > Burst(cfg, r.rpm) then (st.minute, r.window as real) else (st.daily, DAY)
  }

  /** A denied request changes no count, and names at least one second to wait.  One second more than
      that always reopens the refusing window; the named wait itself does so exactly when the
      remaining time had no fraction to cut off. */
  lemma RetryAfterIsAtMostASecondShort(l: Limiter, cfg: Config, r: Request, cleaning: bool, t: real)
    ensures
      var (l1, a) := Serve(l, cfg, r, cleaning);
      var (c, w) := Blocking(l, cfg, r);
      var left := w - (r.later - c.start);
      a.Denied? ==>
        && StateOf(l1, r.key) == RefreshBoth(StateOf(l, r.key), r.window, r.now) && a.retryAfter >= 1
        && (t >= r.later + a.retryAfter as real + 1.0 ==> Refresh(c, w, t) == Counter(0, t))
        && (r.later + a.retryAfter as real - c.start >= w <==> left <= 1.0 || left.Floor as real == left)
  {
    hide Serve;
    var (c, w) := Blocking(l, cfg, r);
    DeniedByBlocking(l, cfg, r, cleaning);
    TruncIsClose(w - (r.later - c.start));
  }

  lemma TruncIsClose(x: real)
    ensures x < Max(1, Trunc(x)) as real + 1.0
    ensures x <= Max(1, Trunc(x)) as real <==> x <= 1.0 || x.Floor as real == x
  {
    assert x.Floor as real <= x < x.Floor as real + 1.0;
  }

  lemma DeniedByBlocking(l: Limiter, cfg: Config, r: Request, cleaning: bool)
    ensures
      var (l1, a) := Serve(l, cfg, r, cleaning);
      var (c, w) := Blocking(l, cfg, r);
      a.Denied? ==>
        && StateOf(l1, r.key) == RefreshBoth(StateOf(l, r.key), r.window, r.now)
        && a.retryAfter == Max(1, Trunc(w - (r.later - c.start)))
  {
  }

  // ----- cleanup cannot be observed

  /** `a` lacks only states of `b` that any request from time `t` on would reset entirely. */
  ghost predicate LacksOnlyStale(a: Limiter, b: Limiter, t: real) {
    && (forall k | k in a.states :: k in b.states && a.states[k] == b.states[k])
    && forall k | k in b.states && k !in a.states ::
         b.states[k].minute.start <= t - DAY && b.states[k].daily.start <= t - DAY
  }

  lemma StaleOrFreshResetAlike(a: Limiter, b: Limiter, r: Request, t: real)
    requires LacksOnlyStale(a, b, t) && DAY <= t <= r.now && r.window as real <= DAY
    ensures RefreshBoth(StateOf(a, r.key), r.window, r.now) == RefreshBoth(StateOf(b, r.key), r.window, r.now)
  {
  }

  lemma ServeKeepsLacking(a: Limiter, b: Limiter, cfg: Config, r: Request, t: real)
    requires LacksOnlyStale(a, b, t) && DAY <= t <= r.now <= r.later && r.window as real <= DAY
    ensures
      var (a1, x) := Serve(a, cfg, r, true);
      var (b1, y) := Serve(b, cfg, r, false);
      x == y && LacksOnlyStale(a1, b1, r.later)
  {
    StaleOrFreshResetAlike(a, b, r, t);
  }

  lemma {:induction false} LackingAnswersAlike(a: Limiter, b: Limiter, cfg: Config, rs: seq<Request>, t: real)
    requires LacksOnlyStale(a, b, t) && DAY <= t && Clocked(rs, t)
    requires forall i | 0 <= i < |rs| :: rs[i].window as real <= DAY
    ensures ServeAll(a, cfg, rs, true) == ServeAll(b, cfg, rs, false)
    decreases |rs|
  {
    if rs != [] {
      ClockedTail(rs, t);
      ServeKeepsLacking(a, b, cfg, rs[0], t);
      LackingAnswersAlike(Serve(a, cfg, rs[0], true).0, Serve(b, cfg, rs[0], false).0, cfg, rs[1..], rs[0].later);
    }
  }

  /** Deleting stale states never changes an answer. */
  lemma CleanupIsInvisible(l: Limiter, cfg: Config, rs: seq<Request>)
    requires Clocked(rs, DAY) && forall i | 0 <= i < |rs| :: rs[i].window as real <= DAY
    ensures ServeAll(l, cfg, rs, true) == ServeAll(l, cfg, rs, false)
  {
    LackingAnswersAlike(l, l, cfg, rs, DAY);
  }

  /** With one window length for all requests, no run can observe cleanup exactly when that window is
      at most a day. */
  ghost predicate CleanupInvisibleFor(window: int) {
    forall l: Limiter, cfg: Config, rs: seq<Request> |
      Clocked(rs, DAY) && (forall i | 0 <= i < |rs| :: rs[i].window == window) ::
      ServeAll(l, cfg, rs, true) == ServeAll(l, cfg, rs, false)
  }

  lemma CleanupInvisibleExactlyUpToADay(window: int)
    ensures CleanupInvisibleFor(window) <==> window <= 86400
  {
    if window <= 86400 {
      forall l: Limiter, cfg: Config, rs: seq<Request> |
        Clocked(rs, DAY) && (forall i | 0 <= i < |rs| :: rs[i].window == window)
        ensures ServeAll(l, cfg, rs, true) == ServeAll(l, cfg, rs, false)
      {
        CleanupIsInvisible(l, cfg, rs);
      }
    } else {
      var l, cfg, rs := LongWindowShowsCleanup(window);
    }
  }

  /** Under a longer window a used-up state is deleted while its window is still open. */
  lemma LongWindowShowsCleanup(window: int) returns (l: Limiter, cfg: Config, rs: seq<Request>)
    requires window > 86400
    ensures Clocked(rs, DAY) && forall i | 0 <= i < |rs| :: rs[i].window == window
    ensures ServeAll(l, cfg, rs, true) != ServeAll(l, cfg, rs, false)
  {
    var t := window as real;
    var u := t + DAY + 0.5;
    l, cfg := Limiter(map[], 0.0), Config(60, 10000, 60, 1.5, 300.0, map[]);
    var first := Request("a", 3, 2, 10000, window, t, t);
    var other := Request("b", 1, 2, 10000, window, u, u);
    var again := Request("a", 1, 2, 10000, window, u, u);
    rs := [first, other, again];
    assert Burst(cfg, 2) == 3;
    var (a1, _) := Serve(l, cfg, first, true);
    var (b1, _) := Serve(l, cfg, first, false);
    var (a2, _) := Serve(a1, cfg, other, true);
    var (b2, _) := Serve(b1, cfg, other, false);
    assert "a" !in a2.states && b2.states["a"] == State(Counter(3, t), Counter(3, t));
    assert Serve(a2, cfg, again, true).1.Allowed? && Serve(b2, cfg, again, false).1.Denied?;
    ThreeAnswers(l, cfg, first, other, again, true);
    ThreeAnswers(l, cfg, first, other, again, false);
  }

  lemma OneAnswer(l: Limiter, cfg: Config, r: Request, rest: seq<Request>, cleaning: bool)
    ensures ServeAll(l, cfg, [r] + rest, cleaning) ==
      [Serve(l, cfg, r, cleaning).1] + ServeAll(Serve(l, cfg, r, cleaning).0, cfg, rest, cleaning)
  {
    hide Serve;
    assert ([r] + rest)[1..] == rest;
  }

  lemma ThreeAnswers(l: Limiter, cfg: Config, r1: Request, r2: Request, r3: Request, cleaning: bool)
    ensures
      var (l1, a1) := Serve(l, cfg, r1, cleaning);
      var (l2, a2) := Serve(l1, cfg, r2, cleaning);
      ServeAll(l, cfg, [r1, r2, r3], cleaning) == [a1, a2, Serve(l2, cfg, r3, cleaning).1]
  {
    hide Serve;
    var (l1, a1) := Serve(l, cfg, r1, cleaning);
    var (l2, a2) := Serve(l1, cfg, r2, cleaning);
    OneAnswer(l2, cfg, r3, [], cleaning);
    OneAnswer(l1, cfg, r2, [r3], cleaning);
    OneAnswer(l, cfg, r1, [r2, r3], cleaning);
  }
}
