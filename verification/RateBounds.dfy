/** How much the limiter admits over any interval of time. */
module RateBounds {
  import opened RateLimiting

  /** The two limits a request is held to. */
  datatype Limit = PerWindow | PerDay

  function CounterOf(st: State, lim: Limit): Counter {
    match lim case PerWindow => st.minute case PerDay => st.daily
  }

  function Window(r: Request, lim: Limit): real {
    match lim case PerWindow => r.window as real case PerDay => DAY
  }

  function Cap(cfg: Config, r: Request, lim: Limit): int {
    match lim case PerWindow => Burst(cfg, r.rpm) case PerDay => r.rpd
  }

  /** The cost admitted for `key` at times from `lo` to `hi`, both included. */
  function Admitted(rs: seq<Request>, answers: seq<Answer>, key: string, lo: real, hi: real): int
    requires |rs| == |answers|
    decreases |rs|
  {
    if rs == [] then 0
    else
      (if rs[0].key == key && answers[0].Allowed? && lo <= rs[0].now <= hi then rs[0].cost else 0)
      + Admitted(rs[1..], answers[1..], key, lo, hi)
  }

  /** All requests for `key` are positive and held to the same limit. */
  ghost predicate ConstantLimit(cfg: Config, rs: seq<Request>, key: string, lim: Limit, w: real, cap: int) {
    forall i | 0 <= i < |rs| && rs[i].key == key ::
      rs[i].cost > 0 && Window(rs[i], lim) == w && Cap(cfg, rs[i], lim) == cap
  }

  /** `ceil(x)`. */
  function Ceil(x: real): int {
    -((-x).Floor)
  }

  // ----- arithmetic of windows

  /** How many more windows can begin by `hi` after one that began at `start`. */
  function Further(start: real, w: real, hi: real): int
    requires w > 0.0
  {
    if hi < start + w then 0 else ((hi - start) / w).Floor
  }

  lemma SignOfProduct(x: real, w: real)
    requires w > 0.0
    ensures x * w < 0.0 <==> x < 0.0
    ensures x * w > 0.0 <==> x > 0.0
  {
  }

  lemma DivideAtLeast(a: real, b: real, w: real)
    requires w > 0.0 && a >= b + w
    ensures a / w >= b / w + 1.0
  {
    var q, p := a / w, b / w;
    assert (q - p - 1.0) * w == q * w - p * w - w == a - b - w;
    SignOfProduct(q - p - 1.0, w);
  }

  lemma DivideLessThan(a: real, b: real, w: real)
    requires w > 0.0 && a < b + w
    ensures a / w < b / w + 1.0
  {
    var q, p := a / w, b / w;
    assert (q - p - 1.0) * w == q * w - p * w - w == a - b - w;
    SignOfProduct(q - p - 1.0, w);
  }

  lemma LaterWindowLeavesFewer(start: real, now: real, w: real, hi: real)
    requires w > 0.0 && start + w <= now <= hi
    ensures 0 <= Further(now, w, hi) < Further(start, w, hi)
  {
    DivideAtLeast(hi - start, hi - now, w);
    DivideAtLeast(hi - start, 0.0, w);
    assert 0.0 / w == 0.0;
    if hi >= now + w { DivideAtLeast(hi - now, 0.0, w); }
  }

  /** A window still open at `lo` leaves at most ceil(L / w) more by `lo + L`. */
  lemma FurtherFromOpenWindow(start: real, w: real, lo: real, hi: real)
    requires w > 0.0 && lo <= hi && lo - start < w
    ensures 0 <= Further(start, w, hi) <= Ceil((hi - lo) / w)
  {
    var x, y := (hi - start) / w, (hi - lo) / w;
    SignOfProduct(y, w);
    assert y * w == hi - lo;
    DivideLessThan(hi - start, hi - lo, w);
    if hi >= start + w {
      SignOfProduct(x, w);
      assert x * w == hi - start;
      assert x.Floor as real <= x && (-y).Floor as real <= -y;
      assert Ceil(y) as real >= y;
    }
  }

  // ----- one counter over a run

  /** What the counter can still admit by `hi`: the rest of its window, and full windows after it. */
  function Room(c: Counter, w: real, cap: int, hi: real): int
    requires w > 0.0
  {
    cap - c.count + cap * Further(c.start, w, hi)
  }

  /** The room once the counter has been refreshed at `t`. */
  function RoomAt(c: Counter, w: real, cap: int, t: real, hi: real): int
    requires w > 0.0
  {
    Room(Refresh(c, w, t), w, cap, hi)
  }

  lemma LaterStartLeavesNoMore(start: real, later: real, w: real, hi: real)
    requires w > 0.0 && start <= later <= hi
    ensures 0 <= Further(later, w, hi) <= Further(start, w, hi)
  {
    if hi >= later + w {
      DivideAtLeast(hi - later, 0.0, w);
      assert 0.0 / w == 0.0;
      SignOfProduct((hi - start) / w - (hi - later) / w, w);
      assert ((hi - start) / w - (hi - later) / w) * w == later - start;
    } else if hi >= start + w {
      DivideAtLeast(hi - start, 0.0, w);
      assert 0.0 / w == 0.0;
    }
  }

  lemma RoomShrinks(c: Counter, w: real, cap: int, t: real, now: real, hi: real)
    requires w > 0.0 && 0 <= c.count <= cap && c.start <= t <= now <= hi
    ensures RoomAt(c, w, cap, now, hi) <= RoomAt(c, w, cap, t, hi)
  {
    if t - c.start >= w {
      LaterStartLeavesNoMore(t, now, w, hi);
      assert cap * Further(now, w, hi) <= cap * Further(t, w, hi);
    } else if now - c.start >= w {
      LaterWindowLeavesFewer(c.start, now, w, hi);
      assert cap * (Further(now, w, hi) + 1) <= cap * Further(c.start, w, hi);
      assert cap * (Further(now, w, hi) + 1) == cap * Further(now, w, hi) + cap;
    }
  }

  /** The counter of `key` is within its cap and not ahead of the clock. */
  ghost predicate Within(l: Limiter, key: string, lim: Limit, cap: int, t: real) {
    var c := CounterOf(StateOf(l, key), lim);
    0 <= c.count <= cap && c.start <= t
  }

  lemma {:induction false} NothingAfterwards(rs: seq<Request>, answers: seq<Answer>, key: string, lo: real, hi: real,
                                             t: real)
    requires |rs| == |answers| && Clocked(rs, t) && t > hi
    ensures Admitted(rs, answers, key, lo, hi) == 0
    decreases |rs|
  {
    if rs != [] {
      ClockedTail(rs, t);
      NothingAfterwards(rs[1..], answers[1..], key, lo, hi, rs[0].later);
    }
  }

  /** What one request does to the counter of `key`, before any cleanup. */
  ghost predicate Moves(c: Counter, c1: Counter, r: Request, a: Answer, cfg: Config, key: string, lim: Limit) {
    if r.key != key then c1 == c
    else
      var d := Refresh(c, Window(r, lim), r.now);
      if a.Allowed? then c1 == d.(count := d.count + r.cost) && c1.count <= Cap(cfg, r, lim) else c1 == d
  }

  /** Cleanup forgets a counter only when any request from then on would reset it. */
  lemma ServeMovesCounter(l: Limiter, cfg: Config, r: Request, cleaning: bool, key: string, lim: Limit, w: real)
      returns (e: Counter)
    requires 0.0 < w <= DAY <= r.later
    ensures
      var (l1, a) := Serve(l, cfg, r, cleaning);
      var c, c1 := CounterOf(StateOf(l, key), lim), CounterOf(StateOf(l1, key), lim);
      && Moves(c, e, r, a, cfg, key, lim) && (c1 == e || c1 == Counter(0, 0.0))
      && Refresh(c1, w, r.later) == Refresh(e, w, r.later)
  {
    var l0 := Serve(l, cfg, r, false).0;
    e := CounterOf(StateOf(l0, key), lim);
    ServeWithCleanup(l, cfg, r);
    hide Serve;
    CleanupForgetsExpired(l0, cfg, r.later, key, lim, w);
    ServeMoves(l, cfg, r, key, lim);
  }

  lemma ServeMoves(l: Limiter, cfg: Config, r: Request, key: string, lim: Limit)
    ensures
      var (l1, a) := Serve(l, cfg, r, false);
      Moves(CounterOf(StateOf(l, key), lim), CounterOf(StateOf(l1, key), lim), r, a, cfg, key, lim)
  {
  }

  lemma ServeWithCleanup(l: Limiter, cfg: Config, r: Request)
    ensures
      var (l0, a) := Serve(l, cfg, r, false);
      Serve(l, cfg, r, true) == (if a.Allowed? then Cleanup(l0, cfg, r.later) else l0, a)
  {
    hide Cleanup;
  }

  lemma CleanupForgetsExpired(l: Limiter, cfg: Config, at: real, key: string, lim: Limit, w: real)
    requires 0.0 < w <= DAY <= at
    ensures
      var c, c1 := CounterOf(StateOf(l, key), lim), CounterOf(StateOf(Cleanup(l, cfg, at), key), lim);
      (c1 == c || c1 == Counter(0, 0.0)) && Refresh(c1, w, at) == Refresh(c, w, at)
  {
  }

  lemma RoomIsNotNegative(c: Counter, w: real, cap: int, hi: real)
    requires w > 0.0 && 0 <= c.count <= cap
    ensures Room(c, w, cap, hi) >= 0
  {
    SignOfProduct((hi - c.start) / w, w);
    assert ((hi - c.start) / w) * w == hi - c.start;
    assert cap * Further(c.start, w, hi) >= 0;
  }

  lemma ChargeUsesRoom(d: Counter, w: real, cap: int, hi: real, cost: int)
    requires w > 0.0
    ensures Room(d.(count := d.count + cost), w, cap, hi) + cost == Room(d, w, cap, hi)
  {
  }

  /** What a request leaves to be admitted: the counter stays within its cap, and the room after it
      plus its admitted cost fit the room there was. */
  lemma RoomAfter(l: Limiter, cfg: Config, r: Request, cleaning: bool, key: string, lim: Limit,
                  w: real, cap: int, t: real, hi: real)
    requires 0.0 < w <= DAY <= t <= r.now <= r.later && r.now <= hi && cap >= 0
    requires r.key == key ==> r.cost > 0 && Window(r, lim) == w && Cap(cfg, r, lim) <= cap
    requires Within(l, key, lim, cap, t)
    ensures
      var (l1, a) := Serve(l, cfg, r, cleaning);
      var c, c1 := CounterOf(StateOf(l, key), lim), CounterOf(StateOf(l1, key), lim);
      var cost := if r.key == key && a.Allowed? then r.cost else 0;
      && Within(l1, key, lim, cap, r.later) && cost <= RoomAt(c, w, cap, r.now, hi)
      && (r.later <= hi ==> RoomAt(c1, w, cap, r.later, hi) + cost <= RoomAt(c, w, cap, r.now, hi))
  {
    var (l1, a) := Serve(l, cfg, r, cleaning);
    var c, c1 := CounterOf(StateOf(l, key), lim), CounterOf(StateOf(l1, key), lim);
    var e := ServeMovesCounter(l, cfg, r, cleaning, key, lim, w);
    hide Serve, Room;
    var d := Refresh(c, w, r.now);
    RoomIsNotNegative(d, w, cap, hi);
    if r.later <= hi { RoomShrinks(e, w, cap, r.now, r.later, hi); }
    if r.key == key {
      if a.Allowed? {
        ChargeUsesRoom(d, w, cap, hi, r.cost);
        RoomIsNotNegative(e, w, cap, hi);
      }
      assert Refresh(e, w, r.now) == e;
    }
  }

  lemma {:induction false} AdmittedFitsRoom(l: Limiter, cfg: Config, rs: seq<Request>, cleaning: bool, key: string,
                                            lim: Limit, w: real, cap: int, t: real, lo: real, hi: real)
    requires 0.0 < w <= DAY <= t <= hi && Clocked(rs, t) && ConstantLimit(cfg, rs, key, lim, w, cap)
    requires Within(l, key, lim, Max(0, cap), t)
    ensures Admitted(rs, ServeAll(l, cfg, rs, cleaning), key, lo, hi)
            <= RoomAt(CounterOf(StateOf(l, key), lim), w, Max(0, cap), t, hi)
    decreases |rs|
  {
    var c := CounterOf(StateOf(l, key), lim);
    RoomIsNotNegative(Refresh(c, w, t), w, Max(0, cap), hi);
    if rs != [] {
      hide Serve, Room, RoomAt;
      ClockedTail(rs, t);
      if rs[0].now > hi {
        assert Clocked(rs, rs[0].now);
        NothingAfterwards(rs, ServeAll(l, cfg, rs, cleaning), key, lo, hi, rs[0].now);
      } else {
        RoomAfter(l, cfg, rs[0], cleaning, key, lim, w, Max(0, cap), t, hi);
        RoomShrinks(c, w, Max(0, cap), t, rs[0].now, hi);
        RestFits(l, cfg, rs, cleaning, key, lim, w, cap, lo, hi);
      }
    }
  }

  /** What a run admits after its first request, given that the first is not too late. */
  lemma {:induction false} RestFits(l: Limiter, cfg: Config, rs: seq<Request>, cleaning: bool, key: string,
                                    lim: Limit, w: real, cap: int, lo: real, hi: real)
    requires rs != [] && 0.0 < w <= DAY <= rs[0].later && ConstantLimit(cfg, rs, key, lim, w, cap)
    requires Clocked(rs[1..], rs[0].later)
    requires Within(Serve(l, cfg, rs[0], cleaning).0, key, lim, Max(0, cap), rs[0].later)
    ensures
      var l1 := Serve(l, cfg, rs[0], cleaning).0;
      var rest := Admitted(rs[1..], ServeAll(l1, cfg, rs[1..], cleaning), key, lo, hi);
      if rs[0].later > hi then rest == 0
      else rest <= RoomAt(CounterOf(StateOf(l1, key), lim), w, Max(0, cap), rs[0].later, hi)
    decreases |rs|, 0
  {
    hide Serve, RoomAt;
    var l1 := Serve(l, cfg, rs[0], cleaning).0;
    if rs[0].later > hi {
      NothingAfterwards(rs[1..], ServeAll(l1, cfg, rs[1..], cleaning), key, lo, hi, rs[0].later);
    } else {
      AdmittedFitsRoom(l1, cfg, rs[1..], cleaning, key, lim, w, cap, rs[0].later, lo, hi);
    }
  }

  /** The bound for an interval from `lo` to `hi`. */
  function IntervalBound(cap: int, w: real, lo: real, hi: real): int
    requires w > 0.0
  {
    Max(0, cap) * (Ceil((hi - lo) / w) + 1)
  }

  /** Whatever the run was before, an interval's first request finds a window open since less than
      `w`; that window and the ceil(L / w) that can follow bound what the interval admits. */
  lemma {:induction false} AdmittedIsBounded(l: Limiter, cfg: Config, rs: seq<Request>, cleaning: bool, key: string,
                                             lim: Limit, w: real, cap: int, t: real, lo: real, hi: real)
    requires 0.0 < w <= DAY <= t && lo <= hi && Clocked(rs, t) && ConstantLimit(cfg, rs, key, lim, w, cap)
    requires Within(l, key, lim, Max(0, cap), t)
    ensures Admitted(rs, ServeAll(l, cfg, rs, cleaning), key, lo, hi) <= IntervalBound(cap, w, lo, hi)
    decreases |rs|
  {
    BoundIsNotNegative(cap, w, lo, hi);
    if rs != [] {
      hide Serve, Room, RoomAt, IntervalBound, Within;
      ClockedTail(rs, t);
      var r, c := rs[0], CounterOf(StateOf(l, key), lim);
      if r.now > hi {
        assert Clocked(rs, r.now);
        NothingAfterwards(rs, ServeAll(l, cfg, rs, cleaning), key, lo, hi, r.now);
      } else {
        RoomAfter(l, cfg, r, cleaning, key, lim, w, Max(0, cap), t, hi);
        if r.key == key && lo <= r.now {
          RestFits(l, cfg, rs, cleaning, key, lim, w, cap, lo, hi);
          OpenWindowRoom(c, w, Max(0, cap), t, r.now, lo, hi);
        } else {
          AdmittedIsBounded(Serve(l, cfg, r, cleaning).0, cfg, rs[1..], cleaning, key, lim, w, cap, r.later, lo, hi);
        }
      }
    }
  }

  lemma BoundIsNotNegative(cap: int, w: real, lo: real, hi: real)
    requires w > 0.0 && lo <= hi
    ensures IntervalBound(cap, w, lo, hi) >= 0
  {
    FurtherFromOpenWindow(lo, w, lo, hi);
  }

  lemma OpenWindowRoom(c: Counter, w: real, cap: int, t: real, now: real, lo: real, hi: real)
    requires w > 0.0 && 0 <= c.count <= cap && c.start <= t <= now && lo <= now <= hi
    ensures RoomAt(c, w, cap, now, hi) <= IntervalBound(cap, w, lo, hi)
  {
    var n, d := Ceil((hi - lo) / w), Refresh(c, w, now);
    FurtherFromOpenWindow(d.start, w, lo, hi);
    assert cap * Further(d.start, w, hi) <= cap * n;
    assert cap * (n + 1) == cap * n + cap;
  }

  // ----- the limiter's promises over real time

  /** A limiter constructed at the given time. */
  function New(started: real): Limiter {
    Limiter(map[], started)
  }

  /** For one key and either limit, whatever the other keys do and from any state within the limit: an
      interval of length L admits at most (ceil(L / W) + 1) times the limit. */
  lemma WindowBound(l: Limiter, cfg: Config, rs: seq<Request>, key: string, lim: Limit, w: real, cap: int,
                    t: real, lo: real, hi: real)
    requires DAY <= t && Clocked(rs, t) && 0.0 < w <= DAY && lo <= hi && ConstantLimit(cfg, rs, key, lim, w, cap)
    requires Within(l, key, lim, Max(0, cap), t)
    ensures Admitted(rs, ServeAll(l, cfg, rs, true), key, lo, hi) <= Max(0, cap) * (Ceil((hi - lo) / w) + 1)
  {
    AdmittedIsBounded(l, cfg, rs, true, key, lim, w, cap, t, lo, hi);
  }

  lemma WholeWindow(u: real)
    requires u > 0.0
    ensures u / u == 1.0
  {
  }

  /** Any interval as long as the window admits at most two bursts of `int(rpm * 1.5)`. */
  lemma OneWindowAdmitsTwoBursts(started: real, cfg: Config, rs: seq<Request>, key: string, w: int, rpm: int, lo: real)
    requires Clocked(rs, DAY) && 0 < w <= 86400
    requires forall i | 0 <= i < |rs| && rs[i].key == key :: rs[i].cost > 0 && rs[i].window == w && rs[i].rpm == rpm
    ensures Admitted(rs, ServeAll(New(started), cfg, rs, true), key, lo, lo + w as real) <= 2 * Max(0, Burst(cfg, rpm))
  {
    hide ServeAll, Admitted, Burst;
    var u := w as real;
    WindowBound(New(started), cfg, rs, key, PerWindow, u, Burst(cfg, rpm), DAY, lo, lo + u);
    assert lo + u - lo == u && Ceil(1.0) == 1;
    WholeWindow(u);
  }

  /** Any 86400 seconds admit at most twice the daily limit, whatever the windows. */
  lemma OneDayAdmitsTwoDailyLimits(started: real, cfg: Config, rs: seq<Request>, key: string, rpd: int, lo: real)
    requires Clocked(rs, DAY)
    requires forall i | 0 <= i < |rs| && rs[i].key == key :: rs[i].cost > 0 && rs[i].rpd == rpd
    ensures Admitted(rs, ServeAll(New(started), cfg, rs, true), key, lo, lo + DAY) <= 2 * Max(0, rpd)
  {
    WindowBound(New(started), cfg, rs, key, PerDay, DAY, rpd, DAY, lo, lo + DAY);
  }

  /** The factor two is reached within any positive time `eps`, however short: this is a fixed window,
      not a sliding one. */
  lemma TwoBurstsBackToBack(started: real, cfg: Config, w: int, rpm: int, eps: real)
      returns (rs: seq<Request>, lo: real)
    requires 0 < w <= 86400 && 0.0 < eps <= w as real && Burst(cfg, rpm) > 0
    ensures Clocked(rs, DAY)
    ensures forall i | 0 <= i < |rs| :: rs[i].key == "a" && rs[i].cost > 0 && rs[i].window == w && rs[i].rpm == rpm
    ensures Admitted(rs, ServeAll(New(started), cfg, rs, true), "a", lo, lo + eps) == 2 * Burst(cfg, rpm)
  {
    var b := Burst(cfg, rpm);
    var t1 := DAY + w as real;
    lo := t1 - eps;
    var r1 := Request("a", b + 1, rpm, 2 * b, w, DAY, DAY);
    var r2 := Request("a", b, rpm, 2 * b, w, lo, lo);
    var r3 := Request("a", b, rpm, 2 * b, w, t1, t1);
    rs := [r1, r2, r3];
    CleanupIsInvisible(New(started), cfg, rs);
    ThreeAnswers(New(started), cfg, r1, r2, r3, false);
    var answers := ServeAll(New(started), cfg, rs, false);
    assert answers[0].Denied? && answers[1].Allowed? && answers[2].Allowed?;
    var tail, rest := rs[1..], answers[1..];
    assert tail == [r2, r3] && tail[1..] == [r3] && tail[1..][1..] == [];
    assert Admitted(tail[1..], rest[1..], "a", lo, lo + eps) == b;
  }
}
