/** The fixed-window rate limiter, with each check as one atomic step at one instant of the store's clock. */
module RateLimiter {
  import opened Wrappers

  type Key = string

  /** A counter that the store forgets at `expiresAt`. */
  datatype Window = Window(count: nat, expiresAt: int)

  datatype RateLimitResult = RateLimitResult(allowed: bool, remaining: int, resetIn: int)

  /** `INCR`, and `EXPIRE` when the counter has just been created. */
  function Increment(w: Option<Window>, now: int, length: int): (r: Window)
    ensures r.count >= 1
  {
    var live := w.Some? && now < w.value.expiresAt;
    var current := if live then w.value.count + 1 else 1;
    Window(current, if current == 1 then now + length else w.value.expiresAt)
  }

  class Limiter {
    var production: bool
    var windows: map<Key, Window>

    constructor (production: bool)
      ensures this.production == production && windows == map[]
    {
      this.production, windows := production, map[];
    }

    function WindowOf(key: Key): Option<Window>
      reads this
    {
      if key in windows then Some(windows[key]) else None
    }

    method CheckRateLimit(key: Key, maxRequests: int, windowSeconds: int, now: int) returns (r: RateLimitResult)
      requires windowSeconds > 0
      modifies this`windows
      ensures !production ==> r.allowed && r.remaining == maxRequests && windows == old(windows)
      ensures production ==> windows == old(windows)[key := Increment(old(WindowOf(key)), now, windowSeconds)]
      ensures production ==> (r.allowed <==> windows[key].count <= maxRequests)
      ensures production ==> r.remaining == if r.allowed then maxRequests - windows[key].count else 0
      ensures production ==> r.resetIn == windows[key].expiresAt - now > 0
    {
      if !production { return RateLimitResult(true, maxRequests, windowSeconds); }
      var live := key in windows && now < windows[key].expiresAt;
      var current := if live then windows[key].count + 1 else 1;
      var expiresAt := if current == 1 then now + windowSeconds else windows[key].expiresAt;
      windows := windows[key := Window(current, expiresAt)];
      var ttl := expiresAt - now;
      var resetIn := if ttl > 0 then ttl else windowSeconds;
      if current > maxRequests { return RateLimitResult(false, 0, resetIn); }
      return RateLimitResult(true, maxRequests - current, resetIn);
    }
  }

  // ---------- Runs ----------

  ghost predicate Ascending(times: seq<int>) {
    forall i, j :: 0 <= i < j < |times| ==> times[i] <= times[j]
  }

  /** The key's window after requests at the given times. */
  function After(times: seq<int>, length: int): Option<Window> {
    if times == [] then None
    else Some(Increment(After(times[..|times| - 1], length), times[|times| - 1], length))
  }

  predicate LastAdmitted(times: seq<int>, max: int, length: int)
    requires times != []
  {
    After(times, length).value.count <= max
  }

  /** How many requests of the run were admitted from `a` on and before `b`. */
  function Admitted(times: seq<int>, max: int, length: int, a: int, b: int): nat {
    if times == [] then 0
    else
      var last := times[|times| - 1];
      Admitted(times[..|times| - 1], max, length, a, b) +
      if a <= last < b && LastAdmitted(times, max, length) then 1 else 0
  }

  function Min(a: int, b: int): int {
    if a < b then a else b
  }

  /**
   * Of one window's length, at most two windows see anything: one opened before it, whose opening request
   * lies outside, and one opened inside.
   */
  lemma {:induction false} AdmittedSoFar(times: seq<int>, max: int, length: int, a: int)
    requires Ascending(times) && length > 0 && max >= 1 && times != []
    ensures var w, admitted := After(times, length).value, Admitted(times, max, length, a, a + length);
      var start := w.expiresAt - length;
      start <= times[|times| - 1] &&
      (times[|times| - 1] < a ==> admitted == 0) &&
      (start < a ==> admitted <= Min(w.count, max) - 1) &&
      (a <= start < a + length ==> admitted <= max - 1 + Min(w.count, max)) &&
      admitted <= 2 * max - 1
  {
    var before, last := times[..|times| - 1], times[|times| - 1];
    if before != [] {
      assert before[|before| - 1] <= last;
      AdmittedSoFar(before, max, length, a);
    }
  }

  lemma {:induction false} NothingAdmitted(times: seq<int>, max: int, length: int, a: int, b: int)
    requires max <= 0
    ensures Admitted(times, max, length, a, b) == 0
  {
    if times != [] { NothingAdmitted(times[..|times| - 1], max, length, a, b); }
  }

  /** No half-open interval of one window's length ever sees more than `2 * max - 1` admissions, or any if `max` is 0. */
  lemma AtMostTwiceMinusOne(times: seq<int>, max: nat, length: int, a: int)
    requires Ascending(times) && length > 0
    ensures Admitted(times, max, length, a, a + length) <= if max == 0 then 0 else 2 * max - 1
  {
    if max == 0 {
      NothingAdmitted(times, max, length, a, a + length);
    } else if times != [] {
      AdmittedSoFar(times, max, length, a);
    }
  }

  // ---------- The bound is attained ----------

  function Repeat(t: int, n: nat): seq<int> {
    seq(n, _ => t)
  }

  /** `n` more requests at one instant of a live window, as long as they fit below the maximum. */
  lemma {:induction false} Burst(times: seq<int>, max: int, length: int, t: int, n: nat, a: int, b: int)
    requires times != [] && t < After(times, length).value.expiresAt && a <= t < b
    requires After(times, length).value.count + n <= max
    ensures After(times + Repeat(t, n), length) ==
      Some(Window(After(times, length).value.count + n, After(times, length).value.expiresAt))
    ensures Admitted(times + Repeat(t, n), max, length, a, b) == Admitted(times, max, length, a, b) + n
  {
    var longer := times + Repeat(t, n);
    if n == 0 {
      assert longer == times;
    } else {
      Burst(times, max, length, t, n - 1, a, b);
      assert longer[..|longer| - 1] == times + Repeat(t, n - 1);
      assert longer[|longer| - 1] == t;
    }
  }

  /** One request at 0, the rest of the first window at its last instant, and then a whole window at once. */
  lemma BoundIsAttained(max: nat, length: int) returns (times: seq<int>, a: int)
    requires max >= 1 && length >= 2
    ensures Ascending(times) && Admitted(times, max, length, a, a + length) == 2 * max - 1
  {
    a := length - 1;
    var first := [0] + Repeat(a, max - 1);
    assert [0][..0] == [] && After([0], length) == Some(Window(1, length));
    assert Admitted([0], max, length, a, a + length) == 0 by { assert [0][0] == 0; }
    Burst([0], max, length, a, max - 1, a, a + length);
    var reopen := first + [length];
    assert reopen[..|reopen| - 1] == first && reopen[|reopen| - 1] == length;
    assert After(reopen, length) == Some(Window(1, 2 * length));
    Burst(reopen, max, length, length, max - 1, a, a + length);
    times := reopen + Repeat(length, max - 1);
  }

  /**
   * Requests that begin after the last window expired and all fall within one window's length share one window, and
   * exactly the first `max` of them are admitted.
   */
  lemma {:induction false} WindowAdmitsItsFirst(times: seq<int>, burst: seq<int>, max: nat, length: int)
    requires length > 0 && burst != [] && Ascending(burst) && burst[|burst| - 1] < burst[0] + length
    requires After(times, length).Some? ==> After(times, length).value.expiresAt <= burst[0]
    ensures After(times + burst, length) == Some(Window(|burst|, burst[0] + length))
    ensures LastAdmitted(times + burst, max, length) <==> |burst| <= max
  {
    hide Increment, After;
    var earlier, last := burst[..|burst| - 1], burst[|burst| - 1];
    assert times + burst == (times + earlier) + [last];
    AfterAppend(times + earlier, last, length);
    if earlier == [] {
      assert times + earlier == times;
      OpensWindow(After(times, length), last, length);
    } else {
      assert burst[|burst| - 2] <= last;
      WindowAdmitsItsFirst(times, earlier, max, length);
      StaysInWindow(|earlier|, burst[0] + length, last, length);
    }
  }

  lemma AfterAppend(times: seq<int>, t: int, length: int)
    ensures After(times + [t], length) == Some(Increment(After(times, length), t, length))
  {
    assert (times + [t])[..|times|] == times;
  }

  lemma OpensWindow(w: Option<Window>, t: int, length: int)
    requires w.Some? ==> w.value.expiresAt <= t
    ensures Increment(w, t, length) == Window(1, t + length)
  {}

  lemma StaysInWindow(count: nat, expiresAt: int, t: int, length: int)
    requires count >= 1 && t < expiresAt
    ensures Increment(Some(Window(count, expiresAt)), t, length) == Window(count + 1, expiresAt)
  {}
}
