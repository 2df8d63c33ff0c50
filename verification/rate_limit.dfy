/**
 * The fixed-window rate limiter that guards every write route
 * (server/middleware/rate-limit.ts). One in-process table maps a client key to
 * the number of requests seen in its current window and the time that window
 * ends; a periodic sweep drops finished windows. Time is the `now` parameter
 * (milliseconds), standing for `Date.now()`.
 */
module RateLimit {
  import opened Schema

  datatype Window = Window(count: int, resetTime: int)

  datatype Options = Options(windowMs: int, max: int)

  /** `next()` or the 429 answer with code RATE_LIMIT_EXCEEDED. */
  datatype Decision = Allowed | Rejected

  datatype Admission = Admission(store: map<string, Window>, decision: Decision)

  /** `req.ip || req.socket.remoteAddress || "unknown"`: an empty string is falsy. */
  function ClientKey(ip: Option<string>, remote: Option<string>): (k: string)
    ensures k != ""
    ensures ip.Some? && ip.value != "" ==> k == ip.value
    ensures (ip.None? || ip.value == "") && remote.Some? && remote.value != "" ==> k == remote.value
    ensures k == "unknown" || ip == Some(k) || remote == Some(k)
  {
    if ip.Some? && ip.value != "" then ip.value
    else if remote.Some? && remote.value != "" then remote.value
    else "unknown"
  }

  /** A window is over only once its reset time is strictly in the past. */
  predicate Expired(w: Window, now: int) {
    w.resetTime < now
  }

  /** One request under `key` at time `now`: a missing or expired window is replaced by a
      fresh one holding this request; otherwise the count goes up by one, and the request is
      rejected once the count exceeds `max`. No other key is touched. */
  function Admit(store: map<string, Window>, key: string, now: int, opts: Options): (r: Admission)
    ensures r.store.Keys == store.Keys + {key}
    ensures forall k :: k in store && k != key ==> r.store[k] == store[k]
    ensures key !in store || Expired(store[key], now) ==>
              r.store[key] == Window(1, now + opts.windowMs) && r.decision == Allowed
    ensures key in store && !Expired(store[key], now) ==>
              r.store[key] == Window(store[key].count + 1, store[key].resetTime) &&
              (r.decision == Rejected <==> store[key].count + 1 > opts.max)
  {
    if key !in store || store[key].resetTime < now then
      Admission(store[key := Window(1, now + opts.windowMs)], Allowed)
    else
      var w := Window(store[key].count + 1, store[key].resetTime);
      Admission(store[key := w], if w.count > opts.max then Rejected else Allowed)
  }

  /** What the sweep keeps: every window that is not over at `now`. */
  function Swept(store: map<string, Window>, now: int): (r: map<string, Window>)
    ensures forall k :: k in r <==> k in store && !Expired(store[k], now)
    ensures forall k :: k in r ==> r[k] == store[k]
  {
    map k | k in store && store[k].resetTime >= now :: store[k]
  }

  /** Number of requests let through when the requests at `times` arrive, in order, under one key. */
  function AllowedCount(store: map<string, Window>, key: string, times: seq<int>, opts: Options): nat
    decreases |times|
  {
    if times == [] then 0
    else
      var a := Admit(store, key, times[0], opts);
      (if a.decision == Allowed then 1 else 0) + AllowedCount(a.store, key, times[1..], opts)
  }

  function Clamp(x: int, lo: int, hi: int): int
    requires lo <= hi
  {
    if x < lo then lo else if x > hi then hi else x
  }

  /** While a window stays live, it lets through exactly as many further requests as
      remain below `max`, and never more. */
  lemma {:induction false} LiveWindowAllowance(store: map<string, Window>, key: string, times: seq<int>, opts: Options)
    requires key in store
    requires forall i :: 0 <= i < |times| ==> times[i] <= store[key].resetTime
    ensures AllowedCount(store, key, times, opts) == Clamp(opts.max - store[key].count, 0, |times|)
    decreases |times|
  {
    if times != [] {
      var a := Admit(store, key, times[0], opts);
      assert a.store[key] == Window(store[key].count + 1, store[key].resetTime);
      forall i | 0 <= i < |times[1..]| ensures times[1..][i] <= a.store[key].resetTime {
        assert times[1..][i] == times[i + 1];
      }
      LiveWindowAllowance(a.store, key, times[1..], opts);
    }
  }

  /** A window opened at `t0` admits its opening request and then at most `max - 1` more
      requests before it ends; for `max >= 1` that is at most `max` requests per window.
      With `max <= 0` the opening request still passes. */
  lemma AtMostMaxPerWindow(store: map<string, Window>, key: string, t0: int, times: seq<int>, opts: Options)
    requires key !in store || Expired(store[key], t0)
    requires forall i :: 0 <= i < |times| ==> times[i] <= t0 + opts.windowMs
    ensures AllowedCount(store, key, [t0] + times, opts) == 1 + Clamp(opts.max - 1, 0, |times|)
    ensures opts.max >= 1 ==> AllowedCount(store, key, [t0] + times, opts) <= opts.max
  {
    var a := Admit(store, key, t0, opts);
    assert ([t0] + times)[1..] == times;
    LiveWindowAllowance(a.store, key, times, opts);
  }

  /** The sweep never changes how a later request is answered, nor what it leaves behind
      (up to sweeping): dropping a finished window is the same as the request replacing it. */
  lemma SweepIsTransparent(store: map<string, Window>, key: string, now: int, t: int, opts: Options)
    requires now <= t && opts.windowMs >= 0
    ensures Admit(Swept(store, now), key, t, opts).decision == Admit(store, key, t, opts).decision
    ensures Admit(Swept(store, now), key, t, opts).store == Swept(Admit(store, key, t, opts).store, now)
  {
    var sw := Swept(store, now);
    var lhs := Admit(sw, key, t, opts).store;
    var rhs := Swept(Admit(store, key, t, opts).store, now);
    forall k ensures k in lhs <==> k in rhs
      ensures k in lhs ==> lhs[k] == rhs[k]
    {
      if k != key && k in store {
        assert k in lhs <==> !Expired(store[k], now);
      }
    }
    assert lhs == rhs;
  }

  /** The in-process `store`, shared by every limiter the middleware creates. */
  class RateLimiter {
    var store: map<string, Window>

    constructor ()
      ensures store == map[]
    {
      store := map[];
    }

    /** The middleware handler: counts the request and decides whether it proceeds. */
    method Handle(key: string, now: int, opts: Options) returns (d: Decision)
      modifies this
      ensures Admission(store, d) == Admit(old(store), key, now, opts)
      ensures forall k :: k in old(store) && k != key ==> k in store && store[k] == old(store)[k]
    {
      if key !in store || store[key].resetTime < now {
        store := store[key := Window(1, now + opts.windowMs)];
        return Allowed;
      }
      store := store[key := Window(store[key].count + 1, store[key].resetTime)];
      if store[key].count > opts.max {
        return Rejected;
      }
      d := Allowed;
    }

    /** The body of the once-a-minute `setInterval` callback: deletes every window whose
        reset time is before `now` and leaves every other one as it was. */
    method Sweep(now: int)
      modifies this
      ensures store == Swept(old(store), now)
    {
      var keys := store.Keys;
      while keys != {}
        invariant keys <= old(store).Keys
        invariant store == map k | k in old(store) && (k in keys || old(store)[k].resetTime >= now) :: old(store)[k]
        decreases keys
      {
        var k :| k in keys;
        if store[k].resetTime < now {
          store := store - {k};
        }
        keys := keys - {k};
      }
    }
  }
}
