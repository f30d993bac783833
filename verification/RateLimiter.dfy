/**
 * The fixed-window rate limiter (apps/api/src/ratelimit/rate-limiter.ts): the atomic Redis script and the
 * decision of the request handler. Times are milliseconds; a key is gone from its deadline on.
 */
module RateLimiter {
  import opened Types

  /** A Redis key: INCR's count and the expiry, absent while the key has no TTL. */
  datatype Counter = Counter(count: nat, deadline: Option<Time>)

  datatype Decision = Admitted(remaining: nat) | Rejected(retryAfter: nat) | FailedOpen

  /** What the handler learns of the script: its result, or an error before or after it took effect. */
  datatype Reply = Answered | NeverRan | AnswerLost

  // ---------------------------------------------------------------- the script

  predicate Live(key: Option<Counter>, now: Time) {
    key.Some? && (key.value.deadline.None? || now < key.value.deadline.value)
  }

  /** The key after the script: count one more, and set the expiry only when there is none. */
  function Bump(key: Option<Counter>, now: Time, window: nat): Counter {
    if Live(key, now) then
      Counter(key.value.count + 1, if key.value.deadline.None? then Some(now + window) else key.value.deadline)
    else
      Counter(1, Some(now + window))
  }

  /** TTL in seconds, rounded as Redis rounds it. */
  function Ttl(c: Counter, now: Time): (ttl: int)
    requires c.deadline.Some?
  {
    (c.deadline.value - now + 500) / 1000
  }

  function Max(a: int, b: int): int {
    if a < b then b else a
  }

  /** A live key counts on and keeps its expiry, if it has one; otherwise a window starts now with a count of one. */
  ghost predicate Counted(before: Option<Counter>, after: Counter, now: Time, window: nat) {
    if before.Some? && (before.value.deadline.Some? ==> now < before.value.deadline.value) then
      && after.count == before.value.count + 1
      && (before.value.deadline.Some? ==> after.deadline == before.value.deadline)
      && (before.value.deadline.None? ==> after.deadline == Some(now + window))
    else
      after.count == 1 && after.deadline == Some(now + window)
  }

  /** The seconds left, to the nearest second. */
  ghost predicate SecondsLeft(c: Counter, now: Time, seconds: int) {
    c.deadline.Some? && -500 <= c.deadline.value - now - seconds * 1000 < 500
  }

  class Limiter {
    const windowSeconds: nat
    const maxRequests: nat
    var keys: map<string, Counter>

    constructor (windowSeconds: nat, maxRequests: nat)
      ensures this.windowSeconds == windowSeconds && this.maxRequests == maxRequests && keys == map[]
    {
      this.windowSeconds, this.maxRequests := windowSeconds, maxRequests;
      keys := map[];
    }

    function Get(key: string): Option<Counter>
      reads this
    {
      if key in keys then Some(keys[key]) else None
    }

    /** The Lua script, one atomic step on one key. */
    method IncrWithTtl(key: string, now: Time) returns (current: nat, ttl: int)
      modifies this
      ensures var c := Bump(old(Get(key)), now, windowSeconds * 1000);
              keys == old(keys)[key := c] && current == c.count && ttl == Ttl(c, now)
      ensures key in keys && Counted(old(Get(key)), keys[key], now, windowSeconds * 1000)
      ensures current == keys[key].count && SecondsLeft(keys[key], now, ttl)
    {
      var before := if key in keys && Live(Some(keys[key]), now) then Some(keys[key]) else None;
      current := if before.Some? then before.value.count + 1 else 1;
      if before.Some? && before.value.deadline.Some? {
        keys := keys[key := before.value.(count := current)];
        ttl := (before.value.deadline.value - now + 500) / 1000;
      } else {
        keys := keys[key := Counter(current, Some(now + windowSeconds * 1000))];
        ttl := windowSeconds;
      }
    }

    /** The middleware: count first, then admit, reject, or fail open when Redis does. */
    method Handle(key: string, now: Time, reply: Reply) returns (d: Decision)
      modifies this
      ensures keys == if reply.NeverRan? then old(keys) else old(keys)[key := Bump(old(Get(key)), now, windowSeconds * 1000)]
      ensures d.FailedOpen? <==> !reply.Answered?
      ensures var c := Bump(old(Get(key)), now, windowSeconds * 1000);
              reply.Answered? ==>
                d == if c.count > maxRequests then Rejected(Max(Ttl(c, now), 0)) else Admitted(maxRequests - c.count)
      ensures reply.Answered? ==>
                && key in keys && Counted(old(Get(key)), keys[key], now, windowSeconds * 1000)
                && (d.Rejected? <==> keys[key].count > maxRequests)
                && (d.Admitted? <==> keys[key].count <= maxRequests)
                && (d.Admitted? ==> keys[key].count + d.remaining == maxRequests)
                && (d.Rejected? ==> SecondsLeft(keys[key], now, d.retryAfter))
    {
      if reply.NeverRan? {
        return FailedOpen;
      }
      var count, ttl := IncrWithTtl(key, now);
      if reply.AnswerLost? {
        return FailedOpen;
      }
      if count > maxRequests {
        return Rejected(Max(ttl, 0));
      }
      return Admitted(maxRequests - count);
    }
  }

  // ---------------------------------------------------------------- all requests on one key

  datatype Request = Request(at: Time, reply: Reply)

  ghost predicate Timely(reqs: seq<Request>) {
    forall i, j :: 0 <= i < j < |reqs| ==> reqs[i].at <= reqs[j].at
  }

  /** The key and the index of the request that opened its window. */
  datatype Window = Window(key: Counter, opener: nat)

  function KeyOf(w: Option<Window>): Option<Counter> {
    if w.None? then None else Some(w.value.key)
  }

  /** The key after the first n requests, from a store without it. */
  function After(reqs: seq<Request>, n: nat, window: nat): Option<Window>
    requires n <= |reqs|
  {
    if n == 0 then None
    else
      var before := After(reqs, n - 1, window);
      var r := reqs[n - 1];
      if r.reply.NeverRan? then before
      else
        Some(Window(Bump(KeyOf(before), r.at, window),
                    if Live(KeyOf(before), r.at) then before.value.opener else n - 1))
  }

  predicate Ran(reqs: seq<Request>, i: nat) {
    i < |reqs| && !reqs[i].reply.NeverRan?
  }

  function CountAt(reqs: seq<Request>, i: nat, window: nat): nat
    requires Ran(reqs, i)
  {
    After(reqs, i + 1, window).value.key.count
  }

  function OpenerOf(reqs: seq<Request>, i: nat, window: nat): nat
    requires Ran(reqs, i)
  {
    After(reqs, i + 1, window).value.opener
  }

  /** Request i was let through by the limiter's own count. */
  predicate Passed(reqs: seq<Request>, i: nat, window: nat, max: nat) {
    Ran(reqs, i) && reqs[i].reply.Answered? && CountAt(reqs, i, window) <= max
  }

  /** A live key always has a TTL, and it is the one its first request set. */
  ghost predicate WindowOk(reqs: seq<Request>, n: nat, w: Window, window: nat) {
    && w.opener < n <= |reqs|
    && Ran(reqs, w.opener)
    && w.key.deadline == Some(reqs[w.opener].at + window)
    && w.key.count >= 1
  }

  lemma {:induction false} DeadlineNeverMoves(reqs: seq<Request>, n: nat, window: nat)
    requires n <= |reqs|
    ensures var w := After(reqs, n, window); w.Some? ==> WindowOk(reqs, n, w.value, window)
  {
    if n > 0 {
      DeadlineNeverMoves(reqs, n - 1, window);
    }
  }

  /** Request i falls into the window its opener started. */
  lemma InWindow(reqs: seq<Request>, i: nat, window: nat)
    requires Timely(reqs) && window > 0 && Ran(reqs, i)
    ensures var o := OpenerOf(reqs, i, window);
            && o <= i && Ran(reqs, o)
            && reqs[o].at <= reqs[i].at < reqs[o].at + window
            && (CountAt(reqs, i, window) == 1 <==> o == i)
  {
    DeadlineNeverMoves(reqs, i, window);
    DeadlineNeverMoves(reqs, i + 1, window);
  }

  /** Windows follow one another: requests of one window count up, and a later window starts after the deadline. */
  lemma {:induction false} LaterRequest(reqs: seq<Request>, i: nat, n: nat, window: nat)
    requires Timely(reqs) && window > 0 && i < n <= |reqs| && Ran(reqs, i)
    ensures var w := After(reqs, n, window);
            && w.Some? && OpenerOf(reqs, i, window) < |reqs|
            && (if w.value.opener == OpenerOf(reqs, i, window) then
                  CountAt(reqs, i, window) <= w.value.key.count
                else
                  w.value.opener > i && Ran(reqs, w.value.opener)
                  && reqs[w.value.opener].at >= reqs[OpenerOf(reqs, i, window)].at + window)
    decreases n
  {
    if n > i + 1 {
      LaterRequest(reqs, i, n - 1, window);
      DeadlineNeverMoves(reqs, n - 1, window);
      InWindow(reqs, i, window);
    } else {
      InWindow(reqs, i, window);
    }
  }

  lemma TwoRequests(reqs: seq<Request>, i: nat, j: nat, window: nat)
    requires Timely(reqs) && window > 0 && i < j && Ran(reqs, i) && Ran(reqs, j)
    ensures var o, p := OpenerOf(reqs, i, window), OpenerOf(reqs, j, window);
            o < |reqs| && p < |reqs| &&
            if o == p then CountAt(reqs, i, window) < CountAt(reqs, j, window)
            else p > i && Ran(reqs, p) && reqs[p].at >= reqs[o].at + window
  {
    LaterRequest(reqs, i, j, window);
    LaterRequest(reqs, i, j + 1, window);
    DeadlineNeverMoves(reqs, j, window);
    InWindow(reqs, j, window);
    InWindow(reqs, i, window);
  }

  // ---------------------------------------------------------------- counting admissions

  ghost predicate InSpan(reqs: seq<Request>, i: nat, from: Time, window: nat) {
    i < |reqs| && from <= reqs[i].at < from + window
  }

  /** The requests let through in the half-open span of one window length starting at `from`. */
  ghost function PassedIn(reqs: seq<Request>, from: Time, window: nat, max: nat): set<nat> {
    set i: nat | i < |reqs| && Passed(reqs, i, window, max) && InSpan(reqs, i, from, window)
  }

  /** Requests let through in the window opened by o have different counts between 1 and max. */
  lemma {:induction false} CountsBoundSize(reqs: seq<Request>, s: set<nat>, o: nat, window: nat, low: nat, max: nat)
    requires Timely(reqs) && window > 0 && low <= max
    requires forall i <- s :: Passed(reqs, i, window, max) && OpenerOf(reqs, i, window) == o && CountAt(reqs, i, window) > low
    ensures |s| <= max - low
    decreases max - low
  {
    if s != {} {
      var i :| i in s;
      assert low < max;
      var top := set j | j in s && CountAt(reqs, j, window) == low + 1;
      var rest := s - top;
      CountsBoundSize(reqs, rest, o, window, low + 1, max);
      assert |top| <= 1 by {
        if top != {} {
          var a :| a in top;
          forall b | b in top ensures b == a {
            if b < a {
              TwoRequests(reqs, b, a, window);
            } else if a < b {
              TwoRequests(reqs, a, b, window);
            }
          }
          assert top == {a};
        }
      }
      assert s == rest + top;
    }
  }

  ghost function FromWindow(reqs: seq<Request>, s: set<nat>, o: nat, window: nat): set<nat>
    requires forall i <- s :: Ran(reqs, i)
  {
    set i | i in s && OpenerOf(reqs, i, window) == o
  }

  lemma Earliest(s: set<nat>) returns (a: nat)
    requires s != {}
    ensures a in s && forall b <- s :: a <= b
  {
    var x :| x in s;
    if s == {x} {
      a := x;
    } else {
      var y := Earliest(s - {x});
      a := if x < y then x else y;
      forall b <- s ensures a <= b {
        assert b == x || b in s - {x};
      }
    }
  }

  /** At most max requests are let through per window. */
  lemma PerWindow(reqs: seq<Request>, s: set<nat>, o: nat, window: nat, max: nat)
    requires Timely(reqs) && window > 0
    requires forall i <- s :: Passed(reqs, i, window, max) && OpenerOf(reqs, i, window) == o
    ensures |s| <= max
    ensures o !in s && max > 0 ==> |s| <= max - 1
  {
    forall i <- s ensures CountAt(reqs, i, window) > (if o in s then 0 else 1) {
      InWindow(reqs, i, window);
      DeadlineNeverMoves(reqs, i + 1, window);
    }
    if o !in s && max > 0 {
      CountsBoundSize(reqs, s, o, window, 1, max);
    } else {
      forall i <- s ensures CountAt(reqs, i, window) > 0 {
        DeadlineNeverMoves(reqs, i + 1, window);
      }
      CountsBoundSize(reqs, s, o, window, 0, max);
    }
  }

  /** Two requests in the span from later windows than the earliest one share their window. */
  lemma OnlyOneLaterWindow(reqs: seq<Request>, from: Time, window: nat, a: nat, b: nat, c: nat)
    requires Timely(reqs) && window > 0 && Ran(reqs, a) && Ran(reqs, b) && Ran(reqs, c) && a < b < c
    requires InSpan(reqs, a, from, window) && InSpan(reqs, b, from, window) && InSpan(reqs, c, from, window)
    requires OpenerOf(reqs, a, window) != OpenerOf(reqs, b, window)
    ensures OpenerOf(reqs, b, window) == OpenerOf(reqs, c, window)
  {
    TwoRequests(reqs, a, b, window);
    TwoRequests(reqs, b, c, window);
    InWindow(reqs, a, window);
    InWindow(reqs, c, window);
  }

  /** All requests of s after the earliest window belong to one window, which opens past that window's end. */
  lemma LaterOnes(reqs: seq<Request>, s: set<nat>, from: Time, window: nat, max: nat, a: nat)
    requires Timely(reqs) && window > 0 && max > 0 && a in s
    requires forall i <- s :: Passed(reqs, i, window, max)
    requires forall i <- s :: InSpan(reqs, i, from, window)
    requires forall i <- s :: Ran(reqs, i) && a <= i
    ensures var o := OpenerOf(reqs, a, window);
            var later := s - FromWindow(reqs, s, o, window);
            |later| <= max && (later != {} ==> o !in s)
  {
    var o := OpenerOf(reqs, a, window);
    var later := s - FromWindow(reqs, s, o, window);
    if later != {} {
      var b := Earliest(later);
      var p := OpenerOf(reqs, b, window);
      forall c <- later ensures OpenerOf(reqs, c, window) == p {
        if b < c {
          OnlyOneLaterWindow(reqs, from, window, a, b, c);
        }
      }
      PerWindow(reqs, later, p, window, max);
      TwoRequests(reqs, a, b, window);
      InWindow(reqs, b, window);
      assert reqs[o].at < from;
    }
  }

  /**
   * In any half-open span as long as a window, the limiter lets at most 2 * max - 1 requests through: the span
   * meets at most two windows, and when it meets two it misses the request that opened the first.
   */
  lemma LimiterBound(reqs: seq<Request>, from: Time, window: nat, max: nat)
    requires Timely(reqs) && window > 0 && max > 0
    ensures |PassedIn(reqs, from, window, max)| <= 2 * max - 1
  {
    var s := PassedIn(reqs, from, window, max);
    if s != {} {
      var a := Earliest(s);
      var o := OpenerOf(reqs, a, window);
      var first := FromWindow(reqs, s, o, window);
      LaterOnes(reqs, s, from, window, max, a);
      PerWindow(reqs, first, o, window, max);
      assert s == first + (s - first);
    }
  }

  // ---------------------------------------------------------------- the bound is reached

  /** One request, then max - 1 at the end of its window, then max at the start of the next. */
  function Burst(window: nat, max: nat): seq<Request>
    requires window >= 2
  {
    seq(2 * max, i requires 0 <= i < 2 * max =>
      Request(if i == 0 then 0 else if i < max then window - 1 else window, Answered))
  }

  lemma {:induction false} BurstCounts(window: nat, max: nat, n: nat)
    requires window >= 2 && 1 <= n <= 2 * max
    ensures After(Burst(window, max), n, window)
         == Some(if n <= max then Window(Counter(n, Some(window)), 0) else Window(Counter(n - max, Some(2 * window)), max))
  {
    if n > 1 {
      BurstCounts(window, max, n - 1);
    }
  }

  lemma LimiterBoundIsReached(window: nat, max: nat)
    requires window >= 2 && max > 0
    ensures Timely(Burst(window, max))
    ensures |PassedIn(Burst(window, max), 1, window, max)| == 2 * max - 1
  {
    var reqs := Burst(window, max);
    var s := PassedIn(reqs, 1, window, max);
    forall i | 0 <= i < 2 * max ensures Passed(reqs, i, window, max) {
      BurstCounts(window, max, i + 1);
    }
    assert s == Range(1, 2 * max);
    RangeSize(1, 2 * max);
  }

  ghost function Range(lo: nat, hi: nat): (s: set<nat>)
    ensures forall i: nat :: i in s <==> lo <= i < hi
    decreases hi - lo
  {
    if hi <= lo then {} else Range(lo, hi - 1) + {hi - 1}
  }

  lemma {:induction false} RangeSize(lo: nat, hi: nat)
    requires lo <= hi
    ensures |Range(lo, hi)| == hi - lo
    decreases hi - lo
  {
    if lo < hi {
      RangeSize(lo, hi - 1);
    }
  }
}
