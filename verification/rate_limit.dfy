/** The fixed-window rate limiter of lib/rate-limit.ts. The process-wide map
    from identifier to entry is passed in and returned; the clock reading
    `now` (milliseconds) is a parameter. */
module RateLimit {
  import opened Nullable

  /** The requests counted in the current window and the instant it ends. */
  datatype Entry = Entry(count: int, resetTime: int)

  type Store = map<string, Entry>

  datatype RateLimitResult = RateLimitResult(success: bool, remaining: int, resetTime: int)

  datatype Checked = Checked(result: RateLimitResult, store: Store)

  /** The entry whose window is still open at `now`: expiry is strict, so at
      `now == resetTime` the window still applies. */
  function OpenWindow(store: Store, identifier: string, now: int): Option<Entry> {
    if identifier in store && !(store[identifier].resetTime < now) then Some(store[identifier]) else None
  }

  /** `checkRateLimit(identifier, limit, windowMs)` at clock reading `now`. */
  function CheckRateLimit(store: Store, identifier: string, limit: int, windowMs: int, now: int): (c: Checked)
    ensures c.store.Keys == store.Keys + {identifier}
    ensures forall k :: k in store && k != identifier ==> c.store[k] == store[k]
    ensures c.result.success <==> OpenWindow(store, identifier, now).None? || OpenWindow(store, identifier, now).value.count < limit
    ensures c.store[identifier] == match OpenWindow(store, identifier, now)
                                   case None => Entry(1, now + windowMs)
                                   case Some(e) => if e.count < limit then Entry(e.count + 1, e.resetTime) else e
    ensures c.result.remaining == if c.result.success then limit - c.store[identifier].count else 0
    ensures c.result.resetTime == c.store[identifier].resetTime
    ensures !c.result.success ==> c.store == store
  {
    if identifier !in store || store[identifier].resetTime < now then
      Checked(RateLimitResult(true, limit - 1, now + windowMs), store[identifier := Entry(1, now + windowMs)])
    else
      var entry := store[identifier];
      if entry.count >= limit then
        Checked(RateLimitResult(false, 0, entry.resetTime), store)
      else
        var updated := Entry(entry.count + 1, entry.resetTime);
        Checked(RateLimitResult(true, limit - updated.count, updated.resetTime), store[identifier := updated])
  }

  /** The periodic clean-up: drop the entries whose window ended before `now`. */
  function Sweep(store: Store, now: int): (r: Store)
    ensures forall k :: k in r <==> k in store && !(store[k].resetTime < now)
    ensures forall k :: k in r ==> r[k] == store[k]
  {
    map k | k in store && !(store[k].resetTime < now) :: store[k]
  }

  /** A sweep is invisible to later checks: run at `sweptAt` and followed by a
      check at `now >= sweptAt`, it changes neither the check's result nor the
      entry the check leaves for its identifier. */
  lemma SweepInvisible(store: Store, sweptAt: int, identifier: string, limit: int, windowMs: int, now: int)
    requires sweptAt <= now
    ensures CheckRateLimit(Sweep(store, sweptAt), identifier, limit, windowMs, now).result
            == CheckRateLimit(store, identifier, limit, windowMs, now).result
    ensures CheckRateLimit(Sweep(store, sweptAt), identifier, limit, windowMs, now).store[identifier]
            == CheckRateLimit(store, identifier, limit, windowMs, now).store[identifier]
  {
    assert OpenWindow(Sweep(store, sweptAt), identifier, now) == OpenWindow(store, identifier, now);
  }

  /** The number of calls admitted when `identifier` calls at each of `times`. */
  function Admitted(store: Store, identifier: string, limit: int, windowMs: int, times: seq<int>): nat
    decreases |times|
  {
    if times == [] then 0
    else
      var c := CheckRateLimit(store, identifier, limit, windowMs, times[0]);
      (if c.result.success then 1 else 0) + Admitted(c.store, identifier, limit, windowMs, times[1..])
  }

  /** Inside an open window holding `count <= limit`, at most `limit - count`
      further calls are admitted. */
  lemma {:induction false} AdmittedInOpenWindow(store: Store, identifier: string, limit: int, windowMs: int,
                                                times: seq<int>)
    requires identifier in store && store[identifier].count <= limit
    requires forall i :: 0 <= i < |times| ==> times[i] <= store[identifier].resetTime
    ensures Admitted(store, identifier, limit, windowMs, times) <= limit - store[identifier].count
  {
    if times != [] {
      var c := CheckRateLimit(store, identifier, limit, windowMs, times[0]);
      assert c.store[identifier].resetTime == store[identifier].resetTime;
      AdmittedInOpenWindow(c.store, identifier, limit, windowMs, times[1..]);
    }
  }

  /** At most `limit` calls of one identifier are admitted in one window: the
      call that opens the window at `start` and every later call up to the
      window's end `start + windowMs`. */
  lemma AtMostLimitPerWindow(store: Store, identifier: string, limit: int, windowMs: int, start: int,
                             times: seq<int>)
    requires limit >= 1
    requires OpenWindow(store, identifier, start).None?
    requires forall i :: 0 <= i < |times| ==> times[i] <= start + windowMs
    ensures Admitted(store, identifier, limit, windowMs, [start] + times) <= limit
  {
    var c := CheckRateLimit(store, identifier, limit, windowMs, start);
    assert ([start] + times)[1..] == times;
    AdmittedInOpenWindow(c.store, identifier, limit, windowMs, times);
  }

  /** For `limit >= 1` a stored count never exceeds the limit. */
  lemma CountStaysWithinLimit(store: Store, identifier: string, limit: int, windowMs: int, now: int)
    requires limit >= 1
    requires forall k :: k in store ==> store[k].count <= limit
    ensures var c := CheckRateLimit(store, identifier, limit, windowMs, now);
            forall k :: k in c.store ==> c.store[k].count <= limit
  {
  }

  /** With `limit <= 0` the call opening a window is still admitted, with a
      negative `remaining`, and every other call in that window is refused. */
  lemma NonPositiveLimit(store: Store, identifier: string, limit: int, windowMs: int, start: int, later: int)
    requires limit <= 0
    requires OpenWindow(store, identifier, start).None?
    requires later <= start + windowMs
    ensures CheckRateLimit(store, identifier, limit, windowMs, start).result == RateLimitResult(true, limit - 1, start + windowMs)
    ensures !CheckRateLimit(CheckRateLimit(store, identifier, limit, windowMs, start).store, identifier, limit, windowMs, later).result.success
  {
  }

  /** A limit of 3 per 1000 ms: three calls admitted with 2, 1 and 0
      remaining, the fourth refused, and a call after the window admitted again. */
  lemma ThreePerSecond(store: Store, identifier: string, t: int)
    requires identifier !in store
    ensures var c1 := CheckRateLimit(store, identifier, 3, 1000, t);
            var c2 := CheckRateLimit(c1.store, identifier, 3, 1000, t + 10);
            var c3 := CheckRateLimit(c2.store, identifier, 3, 1000, t + 20);
            var c4 := CheckRateLimit(c3.store, identifier, 3, 1000, t + 1000);
            var c5 := CheckRateLimit(c4.store, identifier, 3, 1000, t + 1001);
            && c1.result.success && c1.result.remaining == 2
            && c2.result.success && c2.result.remaining == 1
            && c3.result.success && c3.result.remaining == 0
            && !c4.result.success && c4.result.remaining == 0
            && c5.result.success && c5.result.remaining == 2
  {
  }

  datatype Policy = Policy(limit: int, windowMs: int)

  /** `RATE_LIMITS`: the presets per kind of caller. */
  const ViewsPolicy: Policy := Policy(100, 60 * 1000)
  const AdminPolicy: Policy := Policy(10, 60 * 1000)
  const AuthPolicy: Policy := Policy(20, 60 * 1000)

  /** Each preset admits at most its limit per identifier in one minute:
      100 view calls, 10 admin calls, 20 auth calls. */
  lemma PresetsPerMinute(store: Store, identifier: string, start: int, times: seq<int>)
    requires OpenWindow(store, identifier, start).None?
    requires forall i :: 0 <= i < |times| ==> times[i] <= start + 60 * 1000
    ensures Admitted(store, identifier, ViewsPolicy.limit, ViewsPolicy.windowMs, [start] + times) <= 100
    ensures Admitted(store, identifier, AdminPolicy.limit, AdminPolicy.windowMs, [start] + times) <= 10
    ensures Admitted(store, identifier, AuthPolicy.limit, AuthPolicy.windowMs, [start] + times) <= 20
  {
    AtMostLimitPerWindow(store, identifier, ViewsPolicy.limit, ViewsPolicy.windowMs, start, times);
    AtMostLimitPerWindow(store, identifier, AdminPolicy.limit, AdminPolicy.windowMs, start, times);
    AtMostLimitPerWindow(store, identifier, AuthPolicy.limit, AuthPolicy.windowMs, start, times);
  }
}
