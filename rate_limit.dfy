/**
 * The sliding-window rate limiter. One store, shared by all requests, maps
 * each client key to the times of its recent requests. A call drops the
 * times that have left the window, records the current time (even when it
 * then refuses), and refuses with 429 once the key holds more than `max`
 * times. The clock is an input: `now` in milliseconds.
 */
module RateLimit {
  import opened Wrappers
  import opened Text
  import opened HttpErrors
  import opened Http

  /**
   * The client key: the key generator's result when there is one and it is
   * not nullish, else the client address, else "unknown".
   */
  function Key(generated: Option<string>, ip: Option<string>): string {
    generated.GetOr(ip.GetOr("unknown"))
  }

  /** `timestamps.filter(ts => ts > windowStart)`. */
  function Prune(ts: seq<int>, windowStart: int): (r: seq<int>)
    ensures |r| <= |ts|
    ensures forall x :: x in r <==> x in ts && x > windowStart
  {
    if ts == [] then []
    else (if ts[0] > windowStart then [ts[0]] else []) + Prune(ts[1..], windowStart)
  }

  /** The filter keeps the original order: pruning a concatenation concatenates the pruned parts. */
  lemma {:induction false} PruneAppend(a: seq<int>, b: seq<int>, windowStart: int)
    ensures Prune(a + b, windowStart) == Prune(a, windowStart) + Prune(b, windowStart)
  {
    if a == [] {
      assert a + b == b;
    } else {
      assert (a + b)[0] == a[0] && (a + b)[1..] == a[1..] + b;
      PruneAppend(a[1..], b, windowStart);
    }
  }

  /** Times that are all inside the window survive pruning unchanged. */
  lemma {:induction false} PruneKeepsRecent(ts: seq<int>, windowStart: int)
    requires forall i :: 0 <= i < |ts| ==> ts[i] > windowStart
    ensures Prune(ts, windowStart) == ts
  {
    if ts != [] {
      PruneKeepsRecent(ts[1..], windowStart);
    }
  }

  /** A time exactly one window old is dropped: the comparison is strict. */
  lemma WindowEdgeIsPruned(ts: seq<int>, now: int, windowMs: nat)
    ensures now - windowMs !in Prune(ts, now - windowMs)
  {
  }

  /** The times stored for `key` before a call: none when the key is new. */
  function Stored(store: map<string, seq<int>>, key: string): seq<int> {
    if key in store then store[key] else []
  }

  /** The store after a call at `now` for `key`: the recent times followed by `now`. */
  function Record(store: map<string, seq<int>>, key: string, now: int, windowMs: nat): (s: map<string, seq<int>>)
    ensures key in s && s[key] == Prune(Stored(store, key), now - windowMs) + [now]
    ensures forall k :: k != key ==> (k in s <==> k in store) && (k in store ==> s[k] == store[k])
  {
    store[key := Prune(Stored(store, key), now - windowMs) + [now]]
  }

  /** `windowMs / 1000` as `String` renders it. */
  function WindowSeconds(windowMs: nat): string {
    ThousandthsToString(windowMs)
  }

  function TooMany(max: nat, windowMs: nat): AppError {
    Raise(TooManyRequests, Some("Too many requests — limit is " + NatToString(max) +
      " per " + WindowSeconds(windowMs) + "s."))
  }

  /** Whether the call that produced `recent` is admitted. */
  predicate Admits(recent: seq<int>, max: nat) {
    |recent| <= max
  }

  /** The limiter middleware and its store. */
  class RateLimiter {
    const windowMs: nat
    const max: nat
    var store: map<string, seq<int>>

    constructor (windowMs: nat, max: nat)
      ensures this.windowMs == windowMs && this.max == max && store == map[]
    {
      this.windowMs := windowMs;
      this.max := max;
      store := map[];
    }

    /**
     * One request at time `now`. `generated` is what the key generator
     * returned, `None` when there is none or it gave a nullish value.
     */
    method Hit(req: Request, generated: Option<string>, now: int, res: Response) returns (o: Outcome)
      modifies this, res
      ensures store == Record(old(store), Key(generated, req.ip), now, windowMs)
      ensures Admits(store[Key(generated, req.ip)], max) ==> o == Continue && unchanged(res)
      ensures !Admits(store[Key(generated, req.ip)], max) ==>
        o == Fail(TooMany(max, windowMs)) &&
        res.headers == old(res.headers)["Retry-After" := WindowSeconds(windowMs)] &&
        res.headersSent == old(res.headersSent) && res.statusCode == old(res.statusCode) && res.ended == old(res.ended)
    {
      var key := Key(generated, req.ip);
      var windowStart := now - windowMs;
      var timestamps := if key in store then store[key] else [];
      var recent := Prune(timestamps, windowStart);
      recent := recent + [now];
      store := store[key := recent];
      if |recent| > max {
        res.SetHeader("Retry-After", WindowSeconds(windowMs));
        return Fail(TooMany(max, windowMs));
      }
      o := Continue;
    }
  }

  /**
   * What a run of calls on one key decides, one entry per call: admitted or
   * not. The store is threaded from each call to the next.
   */
  function Decisions(store: map<string, seq<int>>, key: string, times: seq<int>, windowMs: nat, max: nat): (r: seq<bool>)
    ensures |r| == |times|
    decreases |times|
  {
    if times == [] then []
    else
      var next := Record(store, key, times[0], windowMs);
      [Admits(next[key], max)] + Decisions(next, key, times[1..], windowMs, max)
  }

  /** Every time in `ts` lies in the window that starts at `start`. */
  predicate InWindow(ts: seq<int>, start: int, windowMs: nat) {
    forall i :: 0 <= i < |ts| ==> start <= ts[i] < start + windowMs
  }

  /**
   * Within one window nothing is pruned: with `n` times already stored,
   * call `i` of the run is admitted exactly when `n + i + 1 <= max`.
   */
  lemma {:induction false} DecisionsWithinWindow(store: map<string, seq<int>>, key: string, times: seq<int>,
                                                 windowMs: nat, max: nat, start: int)
    requires InWindow(Stored(store, key), start, windowMs) && InWindow(times, start, windowMs)
    ensures forall i :: 0 <= i < |times| ==>
      (Decisions(store, key, times, windowMs, max)[i] <==> |Stored(store, key)| + i + 1 <= max)
    decreases |times|
  {
    if times != [] {
      var prev := Stored(store, key);
      var next := Record(store, key, times[0], windowMs);
      PruneKeepsRecent(prev, times[0] - windowMs);
      assert next[key] == prev + [times[0]];
      assert Stored(next, key) == prev + [times[0]];
      assert InWindow(times[1..], start, windowMs);
      DecisionsWithinWindow(next, key, times[1..], windowMs, max, start);
      var d := Decisions(store, key, times, windowMs, max);
      forall i | 0 <= i < |times|
        ensures d[i] <==> |prev| + i + 1 <= max
      {
        if i > 0 {
          assert d[i] == Decisions(next, key, times[1..], windowMs, max)[i - 1];
        }
      }
    }
  }

  /** For a new key and a run of calls inside one window, the first `max` are admitted and the rest refused. */
  lemma FirstMaxAdmitted(store: map<string, seq<int>>, key: string, times: seq<int>,
                         windowMs: nat, max: nat, start: int)
    requires key !in store && InWindow(times, start, windowMs)
    ensures forall i :: 0 <= i < |times| ==> (Decisions(store, key, times, windowMs, max)[i] <==> i < max)
  {
    DecisionsWithinWindow(store, key, times, windowMs, max, start);
  }
}
