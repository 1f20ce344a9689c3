/** The sliding-window limit on login attempts: what the pruned queues know about the full history. */
module RateLimiter {
  datatype Attempt = Attempt(client: string, now: real)

  /** A limiter allows `max` attempts within `window` seconds. */
  datatype Limits = Limits(window: real, max: int)

  type Queues = map<string, seq<real>>

  function QueueOf(queues: Queues, client: string): seq<real> {
    if client in queues then queues[client] else []
  }

  /** The queue once hits older than the window have left at the front. */
  function Trimmed(hits: seq<real>, now: real, window: real): seq<real> {
    if hits != [] && now - hits[0] > window then Trimmed(hits[1..], now, window) else hits
  }

  predicate Allows(l: Limits, queues: Queues, a: Attempt) {
    |Trimmed(QueueOf(queues, a.client), a.now, l.window)| < l.max
  }

  function Allow(l: Limits, queues: Queues, a: Attempt): Queues {
    var hits := Trimmed(QueueOf(queues, a.client), a.now, l.window);
    queues[a.client := if Allows(l, queues, a) then hits + [a.now] else hits]
  }

  class LoginRateLimiter {
    const limits: Limits
    var queues: Queues

    constructor (limits: Limits)
      ensures this.limits == limits && queues == map[]
    {
      this.limits, this.queues := limits, map[];
    }

    /** `allow`. */
    method TryHit(client: string, now: real) returns (allowed: bool)
      modifies this
      ensures allowed <==> Allows(limits, old(queues), Attempt(client, now))
      ensures queues == Allow(limits, old(queues), Attempt(client, now))
    {
      var hits := QueueOf(queues, client);
      ghost var target := Trimmed(hits, now, limits.window);
      while hits != [] && now - hits[0] > limits.window
        invariant Trimmed(hits, now, limits.window) == target
      {
        hits := hits[1..];
      }
      if |hits| >= limits.max {
        queues := queues[client := hits];
        return false;
      }
      hits := hits + [now];
      queues := queues[client := hits];
      return true;
    }
  }

  // ---- Whole runs ----

  function Run(l: Limits, attempts: seq<Attempt>): Queues {
    if attempts == [] then map[] else Allow(l, Run(l, attempts[..|attempts| - 1]), attempts[|attempts| - 1])
  }

  /** The times at which a client was let in, over the whole run. */
  function Accepted(l: Limits, attempts: seq<Attempt>, client: string): seq<real> {
    if attempts == [] then []
    else
      var init, last := attempts[..|attempts| - 1], attempts[|attempts| - 1];
      if last.client == client && Allows(l, Run(l, init), last) then Accepted(l, init, client) + [last.now]
      else Accepted(l, init, client)
  }

  predicate Past(attempts: seq<Attempt>, client: string, now: real) {
    forall a :: a in attempts && a.client == client ==> a.now <= now
  }

  /** For each client, time does not run backwards. */
  predicate InOrder(attempts: seq<Attempt>) {
    attempts != [] ==>
      var init, last := attempts[..|attempts| - 1], attempts[|attempts| - 1];
      InOrder(init) && Past(init, last.client, last.now)
  }

  predicate Sorted(ts: seq<real>) {
    forall i, j :: 0 <= i < j < |ts| ==> ts[i] <= ts[j]
  }

  /** How many of `ts` lie in the closed interval from `lo` to `hi`. */
  function CountIn(ts: seq<real>, lo: real, hi: real): nat {
    if ts == [] then 0 else CountIn(ts[..|ts| - 1], lo, hi) + if lo <= ts[|ts| - 1] <= hi then 1 else 0
  }

  /** No stretch of the window's length holds more than `max` of `ts`. */
  predicate Spread(l: Limits, ts: seq<real>) {
    forall i, j :: 0 <= i <= j < |ts| && ts[j] - ts[i] <= l.window ==> j - i < l.max
  }

  lemma {:induction false} TrimmedTwice(hits: seq<real>, t: real, now: real, window: real)
    requires t <= now
    ensures Trimmed(Trimmed(hits, t, window), now, window) == Trimmed(hits, now, window)
  {
    if hits != [] && t - hits[0] > window {
      TrimmedTwice(hits[1..], t, now, window);
    }
  }

  lemma {:induction false} TrimmedAppends(hits: seq<real>, t: real, now: real, window: real)
    ensures now - t <= window ==> Trimmed(hits + [t], now, window) == Trimmed(hits, now, window) + [t]
    ensures Trimmed(Trimmed(hits, now, window) + [t], now, window) == Trimmed(hits + [t], now, window)
  {
    if hits != [] {
      assert (hits + [t])[1..] == hits[1..] + [t];
      if now - hits[0] > window {
        TrimmedAppends(hits[1..], t, now, window);
      }
    }
  }

  /** Trimming drops a prefix whose hits are all too old, and stops at one that is not. */
  lemma {:induction false} TrimmedIs(hits: seq<real>, now: real, window: real) returns (n: nat)
    ensures n <= |hits| && Trimmed(hits, now, window) == hits[n..]
    ensures forall i :: 0 <= i < n ==> now - hits[i] > window
    ensures n < |hits| ==> now - hits[n] <= window
  {
    if hits != [] && now - hits[0] > window {
      var m := TrimmedIs(hits[1..], now, window);
      n := m + 1;
      assert hits[1..][m..] == hits[n..];
      forall i | 0 <= i < n ensures now - hits[i] > window {
        assert i > 0 ==> hits[i] == hits[1..][i - 1];
      }
    } else {
      n := 0;
    }
  }

  /** A queue answers for the whole history of its client. */
  ghost predicate Shows(l: Limits, attempts: seq<Attempt>, client: string) {
    forall now :: Past(attempts, client, now) ==>
      Trimmed(QueueOf(Run(l, attempts), client), now, l.window) == Trimmed(Accepted(l, attempts, client), now, l.window)
  }

  lemma {:induction false} RunShows(l: Limits, attempts: seq<Attempt>, client: string)
    requires InOrder(attempts)
    ensures Shows(l, attempts, client)
  {
    if attempts != [] {
      var init, last := attempts[..|attempts| - 1], attempts[|attempts| - 1];
      assert attempts == init + [last];
      RunShows(l, init, client);
      var hits, log := QueueOf(Run(l, init), client), Accepted(l, init, client);
      forall now | Past(attempts, client, now)
        ensures Trimmed(QueueOf(Run(l, attempts), client), now, l.window)
            == Trimmed(Accepted(l, attempts, client), now, l.window)
      {
        assert last in attempts && Past(init, client, now);
        if last.client == client {
          assert Past(init, client, last.now);
          HitShows(hits, log, last.now, now, l.window);
        }
      }
    }
  }

  lemma HitShows(hits: seq<real>, log: seq<real>, t: real, now: real, window: real)
    requires t <= now && Trimmed(hits, t, window) == Trimmed(log, t, window)
    ensures var hits' := Trimmed(hits, t, window);
      && Trimmed(hits', now, window) == Trimmed(log, now, window)
      && Trimmed(hits' + [t], now, window) == Trimmed(log + [t], now, window)
  {
    var hits' := Trimmed(hits, t, window);
    TrimmedTwice(log, t, now, window);
    TrimmedAppends(hits', t, now, window);
    TrimmedAppends(log, t, now, window);
  }

  lemma {:induction false} AcceptedArePast(l: Limits, attempts: seq<Attempt>, client: string, now: real)
    requires InOrder(attempts)
    ensures Sorted(Accepted(l, attempts, client))
    ensures Past(attempts, client, now) ==> forall t :: t in Accepted(l, attempts, client) ==> t <= now
  {
    if attempts != [] {
      var init, last := attempts[..|attempts| - 1], attempts[|attempts| - 1];
      assert attempts == init + [last];
      AcceptedArePast(l, init, client, now);
      AcceptedArePast(l, init, client, last.now);
      var ts := Accepted(l, init, client);
      assert forall i :: 0 <= i < |ts| ==> ts[i] in ts;
    }
  }

  lemma {:induction false} CountWithin(ts: seq<real>, lo: real, hi: real, n: nat)
    requires n <= |ts| && forall i :: 0 <= i < n ==> ts[i] < lo
    ensures CountIn(ts, lo, hi) <= |ts| - n
  {
    if ts != [] {
      CountWithin(ts[..|ts| - 1], lo, hi, if n == |ts| then n - 1 else n);
    }
  }

  lemma {:induction false} CountAll(ts: seq<real>, lo: real, hi: real, n: nat)
    requires n <= |ts| && (forall i :: 0 <= i < n ==> ts[i] < lo) && (forall i :: n <= i < |ts| ==> lo <= ts[i] <= hi)
    ensures CountIn(ts, lo, hi) == |ts| - n
  {
    if ts != [] {
      CountAll(ts[..|ts| - 1], lo, hi, if n == |ts| then n - 1 else n);
    }
  }

  // ---- The main results ----

  /** An attempt is refused exactly when at least `max` accepted attempts of the whole run lie within
      the window before it. */
  lemma RefusedIffFull(l: Limits, attempts: seq<Attempt>, a: Attempt)
    requires InOrder(attempts + [a])
    ensures Allows(l, Run(l, attempts), a) <==>
        CountIn(Accepted(l, attempts, a.client), a.now - l.window, a.now) < l.max
  {
    assert (attempts + [a])[..|attempts|] == attempts;
    RunShows(l, attempts, a.client);
    AcceptedArePast(l, attempts, a.client, a.now);
    TrimmedCounts(Accepted(l, attempts, a.client), a.now, l.window);
  }

  /** What trimming leaves of a sorted history is what lies in the window. */
  lemma TrimmedCounts(ts: seq<real>, now: real, window: real)
    requires Sorted(ts) && forall t :: t in ts ==> t <= now
    ensures CountIn(ts, now - window, now) == |Trimmed(ts, now, window)|
  {
    var n := TrimmedIs(ts, now, window);
    forall i | n <= i < |ts| ensures now - window <= ts[i] <= now {
      assert ts[i] in ts && ts[n] <= ts[i];
    }
    CountAll(ts, now - window, now, n);
  }

  lemma {:induction false} AcceptedSpread(l: Limits, attempts: seq<Attempt>, client: string)
    requires InOrder(attempts)
    ensures Spread(l, Accepted(l, attempts, client))
  {
    if attempts != [] {
      var init, last := attempts[..|attempts| - 1], attempts[|attempts| - 1];
      AcceptedSpread(l, init, client);
      if last.client == client && Allows(l, Run(l, init), last) {
        RunShows(l, init, client);
        SpreadAppends(l, Accepted(l, init, client), last.now);
      }
    }
  }

  lemma SpreadAppends(l: Limits, ts: seq<real>, now: real)
    requires Spread(l, ts) && |Trimmed(ts, now, l.window)| < l.max
    ensures Spread(l, ts + [now])
  {
    var n := TrimmedIs(ts, now, l.window);
    forall i, j | 0 <= i <= j < |ts + [now]| && (ts + [now])[j] - (ts + [now])[i] <= l.window ensures j - i < l.max {
      if j < |ts| {
        assert ts[j] - ts[i] <= l.window;
      }
    }
  }

  /** Over a whole run, no closed stretch of time as long as the window holds more than `max` accepted
      attempts of one client. */
  lemma WindowNeverOverfull(l: Limits, attempts: seq<Attempt>, client: string, lo: real)
    requires InOrder(attempts) && l.max >= 0
    ensures CountIn(Accepted(l, attempts, client), lo, lo + l.window) <= l.max
  {
    AcceptedSpread(l, attempts, client);
    AcceptedArePast(l, attempts, client, lo);
    SpreadBounds(l, Accepted(l, attempts, client), lo);
  }

  lemma {:induction false} SpreadBounds(l: Limits, ts: seq<real>, lo: real)
    requires Sorted(ts) && Spread(l, ts) && l.max >= 0
    ensures CountIn(ts, lo, lo + l.window) <= l.max
  {
    if ts != [] {
      var last := |ts| - 1;
      if lo <= ts[last] <= lo + l.window {
        var n := FirstFrom(ts, lo);
        CountWithin(ts, lo, lo + l.window, n);
        assert ts[last] - ts[n] <= l.window;
      } else {
        SpreadBounds(l, ts[..last], lo);
      }
    }
  }

  lemma FirstFrom(ts: seq<real>, lo: real) returns (n: nat)
    requires ts != [] && lo <= ts[|ts| - 1]
    ensures n < |ts| && lo <= ts[n] && forall i :: 0 <= i < n ==> ts[i] < lo
  {
    n := 0;
    while ts[n] < lo
      invariant n < |ts| && forall i :: 0 <= i < n ==> ts[i] < lo
      decreases |ts| - n
    {
      n := n + 1;
    }
  }
}
