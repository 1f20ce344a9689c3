/** Replay protection of the webhook ingress: a bounded store of nonces standing in for a log. */
module Nonces {
  import opened Wrappers
  import opened OrderedDicts

  const FRESHNESS_WINDOW := 300.0
  const SEEN_NONCES_MAX := 10000

  datatype Entry = Entry(nonce: string, time: real)

  type Store = OrderedDict<real>

  // ---- The store as a function ----

  function Prune(d: Store, now: real): Store
    decreases |d.order|
  {
    if d.order != [] && d.order[0] in d.at && d.at[d.order[0]] < now - FRESHNESS_WINDOW
    then Prune(d.PopOldest(), now) else d
  }

  function Record(d: Store, nonce: string, now: real): Store {
    var d1 := d.Put(nonce, now);
    if |d1.order| > SEEN_NONCES_MAX then d1.PopOldest() else d1
  }

  function Entries(d: Store): seq<Entry> {
    seq(|d.order|, i requires 0 <= i < |d.order| =>
      Entry(d.order[i], if d.order[i] in d.at then d.at[d.order[i]] else 0.0))
  }

  // ---- A request ----

  /** A request and the times the route reads while handling it: when the signature is verified, when
      the nonce is looked up and when it is recorded. `timestamp` is `None` when it is not a number, and
      `hasSignature` says whether there is a signature header, which is right if `signed`. */
  datatype Request = Request(
    nonce: string, timestamp: Option<int>, hasSignature: bool, signed: bool,
    verified: real, lookedUp: real, recorded: real, wellFormed: bool, forwarded: bool)

  datatype Response = Unauthorized | Deduped | Failed | Accepted

  /** `check_freshness` without a nonce. */
  predicate IsFresh(timestamp: int, now: real) {
    var age := now - timestamp as real;
    (if age < 0.0 then -age else age) <= FRESHNESS_WINDOW
  }

  /** `check_freshness`: fails closed without a timestamp or a nonce. */
  predicate PassesCheck(d: Store, timestamp: Option<int>, nonce: Option<string>, now: real) {
    && (timestamp.Some? || nonce.Some?)
    && (timestamp.Some? ==> IsFresh(timestamp.value, now))
    && (nonce.Some? ==> nonce.value !in Prune(d, now).at)
  }

  function AfterCheck(d: Store, timestamp: Option<int>, nonce: Option<string>, now: real): Store {
    if timestamp.None? && nonce.None? then d
    else if PassesCheck(d, timestamp, nonce, now) && nonce.Some? then Record(Prune(d, now), nonce.value, now)
    else Prune(d, now)
  }

  /** `verify_resend`: the store is pruned once the headers are there and the timestamp is a number. */
  function Verify(d: Store, r: Request): (Store, bool) {
    if r.nonce == "" || !r.hasSignature || r.timestamp.None? then (d, false)
    else (Prune(d, r.verified), IsFresh(r.timestamp.value, r.verified) && r.signed)
  }

  /** `webhook_ingest`. */
  function Ingest(d: Store, r: Request): (Store, Response) {
    var (d1, ok) := Verify(d, r);
    if !ok then (d1, Unauthorized)
    else
      var d2 := Prune(d1, r.lookedUp);
      if r.nonce in d2.at then (d2, Deduped)
      else if !r.wellFormed || !r.forwarded then (d2, Failed)
      else (Record(Prune(d2, r.recorded), r.nonce, r.recorded), Accepted)
  }

  // ---- The store as the source keeps it ----

  class NonceStore {
    var items: Store

    constructor ()
      ensures items == Empty()
    {
      items := Empty();
    }

    method PruneOld(now: real)
      requires items.Valid()
      modifies this
      ensures items == Prune(old(items), now) && items.Valid()
    {
      var cutoff := now - FRESHNESS_WINDOW;
      ghost var target := Prune(items, now);
      while items.order != [] && items.at[items.order[0]] < cutoff
        invariant items.Valid() && Prune(items, now) == target
        decreases |items.order|
      {
        items := items.PopOldest();
      }
    }

    method Seen(nonce: string) returns (seen: bool)
      ensures seen <==> nonce in items.at
    {
      return nonce in items.at;
    }

    method RecordNew(nonce: string, now: real)
      requires items.Valid()
      modifies this
      ensures items == Record(old(items), nonce, now) && items.Valid()
    {
      PutValid(items, nonce, now);
      items := items.Put(nonce, now);
      if |items.order| > SEEN_NONCES_MAX {
        items := items.PopOldest();
      }
    }

    /** `check_freshness`. */
    method CheckFreshness(timestamp: Option<int>, nonce: Option<string>, now: real) returns (passed: bool)
      requires items.Valid()
      modifies this
      ensures items.Valid()
      ensures passed <==> PassesCheck(old(items), timestamp, nonce, now)
      ensures items == AfterCheck(old(items), timestamp, nonce, now)
    {
      if timestamp.None? && nonce.None? {
        return false;
      }
      PruneOld(now);
      if timestamp.Some? && !IsFresh(timestamp.value, now) {
        return false;
      }
      if nonce.Some? {
        var seen := Seen(nonce.value);
        if seen {
          return false;
        }
        RecordNew(nonce.value, now);
      }
      return true;
    }

    method VerifyResend(r: Request) returns (ok: bool)
      requires items.Valid()
      modifies this
      ensures (items, ok) == Verify(old(items), r) && items.Valid()
    {
      if r.nonce == "" || !r.hasSignature {
        return false;
      }
      if r.timestamp.None? {
        return false;
      }
      var passed := CheckFreshness(r.timestamp, None, r.verified);
      if !passed {
        return false;
      }
      return r.signed;
    }

    /** `webhook_ingest` once the connection has been found. */
    method WebhookIngest(r: Request) returns (response: Response)
      requires items.Valid()
      modifies this
      ensures (items, response) == Ingest(old(items), r) && items.Valid()
    {
      var ok := VerifyResend(r);
      if !ok {
        return Unauthorized;
      }
      if r.nonce != "" {
        PruneOld(r.lookedUp);
        var seen := Seen(r.nonce);
        if seen {
          return Deduped;
        }
      }
      if !r.wellFormed {
        return Failed;
      }
      if !r.forwarded {
        return Failed;
      }
      if r.nonce != "" {
        PruneOld(r.recorded);
        RecordNew(r.nonce, r.recorded);
      }
      return Accepted;
    }
  }

  // ---- The log the store stands for ----

  predicate Fits(log: seq<Entry>, now: real) {
    |log| <= SEEN_NONCES_MAX && forall e :: e in log ==> e.time >= now - FRESHNESS_WINDOW
  }

  /** The longest suffix of `log` that fits. */
  function Window(log: seq<Entry>, now: real): seq<Entry> {
    if Fits(log, now) then log else Window(log[1..], now)
  }

  predicate Sorted(log: seq<Entry>) {
    forall i, j :: 0 <= i < j < |log| ==> log[i].time <= log[j].time
  }

  predicate UpTo(log: seq<Entry>, t: real) {
    forall e :: e in log ==> e.time <= t
  }

  lemma {:induction false} WindowIsLongest(log: seq<Entry>, now: real) returns (n: nat)
    ensures n <= |log| && Window(log, now) == log[n..] && Fits(log[n..], now)
    ensures forall k :: 0 <= k < n ==> !Fits(log[k..], now)
  {
    if Fits(log, now) {
      n := 0;
      assert log[0..] == log;
    } else {
      var m := WindowIsLongest(log[1..], now);
      n := m + 1;
      assert log[1..][m..] == log[n..];
      forall k | 0 <= k < n ensures !Fits(log[k..], now) {
        if k == 0 {
          assert log[0..] == log;
        } else {
          assert log[1..][k - 1..] == log[k..];
        }
      }
    }
  }

  lemma {:induction false} WindowTwice(log: seq<Entry>, t: real, now: real)
    requires t <= now
    ensures Window(Window(log, t), now) == Window(log, now)
  {
    if !Fits(log, t) {
      WindowTwice(log[1..], t, now);
    }
  }

  lemma {:induction false} WindowKeeps(log: seq<Entry>, now: real, t: real)
    ensures Sorted(log) ==> Sorted(Window(log, now))
    ensures UpTo(log, t) ==> UpTo(Window(log, now), t)
    ensures |Window(log, now)| <= SEEN_NONCES_MAX
  {
    if !Fits(log, now) {
      WindowKeeps(log[1..], now, t);
    }
  }

  lemma {:induction false} WindowAppends(log: seq<Entry>, e: Entry)
    ensures var w := Window(log, e.time) + [e];
      Window(log + [e], e.time) == if |w| > SEEN_NONCES_MAX then w[1..] else w
  {
    if log == [] {
      assert log + [e] == [e];
    } else {
      assert (log + [e])[1..] == log[1..] + [e];
      if Fits(log, e.time) {
        if |log| == SEEN_NONCES_MAX {
          assert Fits(log[1..] + [e], e.time);
        }
      } else {
        WindowAppends(log[1..], e);
        assert !Fits(log + [e], e.time) by {
          if |log| <= SEEN_NONCES_MAX {
            var x :| x in log && x.time < e.time - FRESHNESS_WINDOW;
            assert x in log + [e];
          }
        }
      }
    }
  }

  lemma PopEntries(d: Store)
    requires d.Valid() && d.order != []
    ensures d.PopOldest().Valid() && Entries(d.PopOldest()) == Entries(d)[1..]
  {
  }

  lemma PutEntries(d: Store, nonce: string, now: real)
    requires d.Valid() && nonce !in d.at
    ensures Entries(d.Put(nonce, now)) == Entries(d) + [Entry(nonce, now)]
  {
  }

  lemma EntriesHave(d: Store, nonce: string)
    requires d.Valid()
    ensures nonce in d.at <==> exists e :: e in Entries(d) && e.nonce == nonce
  {
    if nonce in d.at {
      var i :| 0 <= i < |d.order| && d.order[i] == nonce;
      assert Entries(d)[i] in Entries(d);
    }
  }

  lemma {:induction false} PruneIsWindow(d: Store, now: real)
    requires d.Valid() && Sorted(Entries(d)) && |d.order| <= SEEN_NONCES_MAX
    ensures Prune(d, now).Valid() && Entries(Prune(d, now)) == Window(Entries(d), now)
    decreases |d.order|
  {
    var es := Entries(d);
    if d.order != [] {
      assert es[0] in es;
      if d.at[d.order[0]] < now - FRESHNESS_WINDOW {
        PopEntries(d);
        PruneIsWindow(d.PopOldest(), now);
      } else {
        forall e | e in es ensures e.time >= now - FRESHNESS_WINDOW {
          var i :| 0 <= i < |es| && es[i] == e;
        }
      }
    }
  }

  // ---- Runs of requests, one after the other ----

  /** The store, all records ever made, and the time last read. */
  datatype World = World(store: Store, log: seq<Entry>, last: real)

  function Step(w: World, r: Request): World {
    var (d, response) := Ingest(w.store, r);
    World(d, if response == Accepted then w.log + [Entry(r.nonce, r.recorded)] else w.log, r.recorded)
  }

  function Run(rs: seq<Request>): World {
    if rs == [] then World(Empty(), [], 0.0) else Step(Run(rs[..|rs| - 1]), rs[|rs| - 1])
  }

  /** Clocks do not run backwards, and a request is handled after the one before it. */
  predicate InOrder(rs: seq<Request>) {
    rs != [] ==>
      var init, r := rs[..|rs| - 1], rs[|rs| - 1];
      InOrder(init) && Run(init).last <= r.verified <= r.lookedUp <= r.recorded
  }

  /** The store shows the window of the log as of some time no later than the last. */
  ghost predicate Shows(d: Store, log: seq<Entry>, t: real) {
    d.Valid() && Sorted(log) && UpTo(log, t) && Entries(d) == Window(log, t)
  }

  lemma PruneShows(d: Store, log: seq<Entry>, t: real, now: real)
    requires Shows(d, log, t) && t <= now
    ensures Shows(Prune(d, now), log, now)
  {
    WindowKeeps(log, t, t);
    PruneIsWindow(d, now);
    WindowTwice(log, t, now);
  }

  lemma RecordEntries(d: Store, nonce: string, now: real)
    requires d.Valid() && nonce !in d.at
    ensures var es := Entries(d) + [Entry(nonce, now)];
      Record(d, nonce, now).Valid() && Entries(Record(d, nonce, now)) == if |es| > SEEN_NONCES_MAX then es[1..] else es
  {
    PutEntries(d, nonce, now);
    PutValid(d, nonce, now);
    if |d.Put(nonce, now).order| > SEEN_NONCES_MAX {
      PopEntries(d.Put(nonce, now));
    }
  }

  lemma SortedAppends(log: seq<Entry>, e: Entry)
    requires Sorted(log) && UpTo(log, e.time)
    ensures Sorted(log + [e]) && UpTo(log + [e], e.time)
  {
    forall i | 0 <= i < |log| ensures log[i].time <= e.time {
      assert log[i] in log;
    }
  }

  lemma RecordShows(d: Store, log: seq<Entry>, nonce: string, now: real)
    requires Shows(d, log, now) && nonce !in d.at
    ensures Shows(Record(d, nonce, now), log + [Entry(nonce, now)], now)
  {
    WindowAppends(log, Entry(nonce, now));
    SortedAppends(log, Entry(nonce, now));
    RecordEntries(d, nonce, now);
  }

  /** Pruning only takes nonces away. */
  lemma {:induction false} PruneSubset(d: Store, now: real, nonce: string)
    ensures nonce in Prune(d, now).at ==> nonce in d.at
    decreases |d.order|
  {
    if d.order != [] && d.order[0] in d.at && d.at[d.order[0]] < now - FRESHNESS_WINDOW {
      PruneSubset(d.PopOldest(), now, nonce);
    }
  }

  lemma StepShows(w: World, r: Request, t: real)
    requires Shows(w.store, w.log, t) && t <= r.verified <= r.lookedUp <= r.recorded
    ensures Shows(Step(w, r).store, Step(w, r).log, t)
         || Shows(Step(w, r).store, Step(w, r).log, r.verified)
         || Shows(Step(w, r).store, Step(w, r).log, r.lookedUp)
         || Shows(Step(w, r).store, Step(w, r).log, r.recorded)
  {
    var d1 := Verify(w.store, r).0;
    PruneShows(w.store, w.log, t, r.verified);
    if Verify(w.store, r).1 {
      PruneShows(d1, w.log, r.verified, r.lookedUp);
      var d2 := Prune(d1, r.lookedUp);
      PruneShows(d2, w.log, r.lookedUp, r.recorded);
      PruneSubset(d2, r.recorded, r.nonce);
      if r.nonce !in d2.at {
        RecordShows(Prune(d2, r.recorded), w.log, r.nonce, r.recorded);
      }
    }
  }

  lemma {:induction false} RunShows(rs: seq<Request>) returns (t: real)
    requires InOrder(rs)
    ensures Shows(Run(rs).store, Run(rs).log, t) && t <= Run(rs).last
  {
    if rs == [] {
      t := 0.0;
    } else {
      var init, r := rs[..|rs| - 1], rs[|rs| - 1];
      var t0 := RunShows(init);
      StepShows(Run(init), r, t0);
      var w := Run(rs);
      t := if Shows(w.store, w.log, t0) then t0
           else if Shows(w.store, w.log, r.verified) then r.verified
           else if Shows(w.store, w.log, r.lookedUp) then r.lookedUp else r.recorded;
    }
  }

  // ---- The main results ----

  /** After any run of requests, the pruned store is the longest suffix of the log of all records that
      has at most 10000 entries, none older than 300 seconds. */
  lemma StoreIsLogWindow(rs: seq<Request>, now: real)
    requires InOrder(rs) && now >= Run(rs).last
    ensures Entries(Prune(Run(rs).store, now)) == Window(Run(rs).log, now)
  {
    var t := RunShows(rs);
    PruneShows(Run(rs).store, Run(rs).log, t, now);
  }

  lemma {:induction false} WindowSubset(log: seq<Entry>, now: real)
    ensures forall e :: e in Window(log, now) ==> e in log && e.time >= now - FRESHNESS_WINDOW
  {
    if !Fits(log, now) {
      WindowSubset(log[1..], now);
    }
  }

  lemma {:induction false} StillInWindow(log: seq<Entry>, j: nat, now: real)
    requires j < |log| && Sorted(log) && log[j].time >= now - FRESHNESS_WINDOW && |log| - j <= SEEN_NONCES_MAX
    ensures log[j] in Window(log, now)
  {
    if j == 0 {
    } else if !Fits(log, now) {
      StillInWindow(log[1..], j - 1, now);
    }
  }

  /** After any run, a nonce is seen exactly when some record of it is in the window. */
  lemma SeenIffInWindow(rs: seq<Request>, now1: real, now: real, nonce: string)
    requires InOrder(rs) && Run(rs).last <= now1 <= now
    ensures nonce in Prune(Prune(Run(rs).store, now1), now).at
       <==> exists e :: e in Window(Run(rs).log, now) && e.nonce == nonce
  {
    var t := RunShows(rs);
    PruneShows(Run(rs).store, Run(rs).log, t, now1);
    PruneShows(Prune(Run(rs).store, now1), Run(rs).log, now1, now);
    EntriesHave(Prune(Prune(Run(rs).store, now1), now), nonce);
  }

  // ---- What becomes of a request ----

  /** The headers are there, the timestamp is within 300 seconds of the clock on either side, and the
      signature is right. */
  predicate IsAuthentic(r: Request) {
    && r.nonce != "" && r.hasSignature && r.signed && r.timestamp.Some?
    && -300.0 <= r.verified - r.timestamp.value as real <= 300.0
  }

  /** One of the last 10000 records is of this nonce and at most 300 seconds old. */
  predicate RecordedLately(log: seq<Entry>, nonce: string, now: real) {
    exists j :: 0 <= j < |log| && |log| - j <= 10000 && log[j].nonce == nonce && log[j].time >= now - 300.0
  }

  lemma WindowHasIff(log: seq<Entry>, nonce: string, now: real)
    requires Sorted(log)
    ensures (exists e :: e in Window(log, now) && e.nonce == nonce) <==> RecordedLately(log, nonce, now)
  {
    var n := WindowIsLongest(log, now);
    if e :| e in Window(log, now) && e.nonce == nonce {
      var i :| 0 <= i < |log[n..]| && log[n..][i] == e;
      assert log[n + i] == e;
    }
    if j :| 0 <= j < |log| && |log| - j <= 10000 && log[j].nonce == nonce && log[j].time >= now - 300.0 {
      StillInWindow(log, j, now);
    }
  }

  /** After any run, a request is unauthorized exactly if it is not authentic; deduplicated exactly if it is
      and its nonce was recorded lately; and of the others exactly those that are well-formed and forwarded
      are accepted. */
  lemma ResponseIs(rs: seq<Request>, r: Request)
    requires InOrder(rs) && Run(rs).last <= r.verified <= r.lookedUp
    ensures Ingest(Run(rs).store, r).1 ==
      if !IsAuthentic(r) then Unauthorized
      else if RecordedLately(Run(rs).log, r.nonce, r.lookedUp) then Deduped
      else if r.wellFormed && r.forwarded then Accepted
      else Failed
  {
    var t := RunShows(rs);
    SeenIffInWindow(rs, r.verified, r.lookedUp, r.nonce);
    WindowHasIff(Run(rs).log, r.nonce, r.lookedUp);
  }

  lemma {:induction false} PruneKeepsFresh(d: Store, now: real, nonce: string)
    requires d.Valid() && nonce in d.at && d.at[nonce] >= now - FRESHNESS_WINDOW
    ensures nonce in Prune(d, now).at
    decreases |d.order|
  {
    if d.order != [] && d.order[0] in d.at && d.at[d.order[0]] < now - FRESHNESS_WINDOW {
      PopEntries(d);
      PruneKeepsFresh(d.PopOldest(), now, nonce);
    }
  }

  lemma {:induction false} PruneValid(d: Store, now: real)
    requires d.Valid()
    ensures Prune(d, now).Valid()
    decreases |d.order|
  {
    if d.order != [] && d.order[0] in d.at && d.at[d.order[0]] < now - FRESHNESS_WINDOW {
      PopEntries(d);
      PruneValid(d.PopOldest(), now);
    }
  }

  lemma RecordHolds(d: Store, nonce: string, now: real)
    requires d.Valid() && nonce !in d.at
    ensures Record(d, nonce, now).Valid() && nonce in Record(d, nonce, now).at && Record(d, nonce, now).at[nonce] == now
  {
    PutValid(d, nonce, now);
    var d1 := d.Put(nonce, now);
    assert d1.order[|d1.order| - 1] == nonce;
    if |d1.order| > SEEN_NONCES_MAX {
      PopEntries(d1);
    }
  }

  /** A freshness check fails without timestamp and nonce, or with a timestamp over 300 seconds off on either
      side. A nonce passes only once: the next check of it fails, if made within 300 seconds. */
  lemma CheckedOnce(d: Store, timestamp: Option<int>, nonce: Option<string>, now: real, again: Option<int>, later: real)
    requires d.Valid() && now <= later <= now + 300.0 && PassesCheck(d, timestamp, nonce, now)
    ensures timestamp.Some? || nonce.Some?
    ensures timestamp.Some? ==> -300.0 <= now - timestamp.value as real <= 300.0
    ensures nonce.Some? ==> !PassesCheck(AfterCheck(d, timestamp, nonce, now), again, nonce, later)
  {
    if nonce.Some? {
      PruneValid(d, now);
      RecordHolds(Prune(d, now), nonce.value, now);
      PruneKeepsFresh(AfterCheck(d, timestamp, nonce, now), later, nonce.value);
    }
  }

  /** A check without a nonce passes exactly if the timestamp is within 300 seconds of the clock. */
  lemma TimestampCheckedIff(d: Store, timestamp: Option<int>, now: real)
    ensures PassesCheck(d, timestamp, None, now)
       <==> timestamp.Some? && -300.0 <= now - timestamp.value as real <= 300.0
  {
  }

  /** The request is turned away before anything is forwarded. */
  predicate TurnedAway(d: Store, r: Request) {
    Ingest(d, r).1 == Unauthorized || Ingest(d, r).1 == Deduped
  }

  /** A request whose nonce was recorded, with fewer than 10000 records since, is turned away if the time
      between the two clock readings is no longer than the time from its timestamp to its record. */
  lemma ReplayIsTurnedAway(rs: seq<Request>, j: nat, r: Request)
    requires InOrder(rs) && j < |Run(rs).log| && |Run(rs).log| - j <= SEEN_NONCES_MAX
    requires r.nonce == Run(rs).log[j].nonce && Run(rs).last <= r.verified <= r.lookedUp
    requires r.timestamp.Some? ==> r.lookedUp - r.verified <= Run(rs).log[j].time - r.timestamp.value as real
    ensures TurnedAway(Run(rs).store, r)
  {
    var w := Run(rs);
    if Verify(w.store, r).1 {
      var t := RunShows(rs);
      StillInWindow(w.log, j, r.lookedUp);
      SeenIffInWindow(rs, r.verified, r.lookedUp, r.nonce);
    }
  }

  predicate IsReplay(w: World, r: Request, nonce: string, timestamp: int, gap: real) {
    r.nonce == nonce && r.timestamp == Some(timestamp) && w.last <= r.verified && r.lookedUp == r.verified + gap
  }

  ghost predicate ReplaysTurnedAway(rs: seq<Request>, nonce: string, timestamp: int, gap: real) {
    forall r: Request :: IsReplay(Run(rs), r, nonce, timestamp, gap) ==> TurnedAway(Run(rs).store, r)
  }

  /** Just after a request is accepted, all its replays that take `gap` between verification and lookup
      will be turned away if and only if the gap is at most the time from timestamp to record, or that
      time was already more than the window. */
  lemma ReplaysTurnedAwayIff(rs: seq<Request>, gap: real)
    requires InOrder(rs) && rs != [] && gap >= 0.0
    requires Ingest(Run(rs[..|rs| - 1]).store, rs[|rs| - 1]).1 == Accepted
    ensures var r := rs[|rs| - 1];
      var lead := r.recorded - r.timestamp.value as real;
      ReplaysTurnedAway(rs, r.nonce, r.timestamp.value, gap) <==> gap <= lead || lead > FRESHNESS_WINDOW
  {
    var w, accepted := Run(rs), rs[|rs| - 1];
    var ts := accepted.timestamp.value;
    var lead := accepted.recorded - ts as real;
    assert w.log[|w.log| - 1] == Entry(accepted.nonce, accepted.recorded) && w.last == accepted.recorded;
    if gap <= lead || lead > FRESHNESS_WINDOW {
      forall r: Request | IsReplay(w, r, accepted.nonce, ts, gap) ensures TurnedAway(w.store, r) {
        if gap <= lead {
          ReplayIsTurnedAway(rs, |w.log| - 1, r);
        }
      }
    } else {
      var r := LateReplay(rs, accepted.nonce, ts, gap);
      assert IsReplay(w, r, accepted.nonce, ts, gap);
    }
  }

  /** The replay that is verified as its timestamp is about to expire and looked up after its record has. */
  lemma LateReplay(rs: seq<Request>, nonce: string, timestamp: int, gap: real) returns (r: Request)
    requires InOrder(rs) && nonce != "" && gap >= 0.0
    requires Run(rs).last - timestamp as real < gap && Run(rs).last - timestamp as real <= FRESHNESS_WINDOW
    ensures IsReplay(Run(rs), r, nonce, timestamp, gap) && !TurnedAway(Run(rs).store, r)
  {
    var at := timestamp as real + FRESHNESS_WINDOW;
    r := Request(nonce, Some(timestamp), true, true, at, at + gap, at + gap, true, true);
    ExpiredIsNotSeen(rs, at, at + gap, nonce);
  }

  lemma ExpiredIsNotSeen(rs: seq<Request>, now1: real, now: real, nonce: string)
    requires InOrder(rs) && Run(rs).last <= now1 <= now && Run(rs).last < now - FRESHNESS_WINDOW
    ensures nonce !in Prune(Prune(Run(rs).store, now1), now).at
  {
    var t := RunShows(rs);
    SeenIffInWindow(rs, now1, now, nonce);
    WindowSubset(Run(rs).log, now);
  }

  /** A request that could not be forwarded leaves its nonce free: a genuine retry is not deduplicated. */
  lemma FailureLeavesNonceFree(d: Store, r: Request, retry: Request)
    requires Ingest(d, r).1 == Failed && retry.nonce == r.nonce
    ensures Ingest(Ingest(d, r).0, retry).1 ==
      if !Verify(Ingest(d, r).0, retry).1 then Unauthorized
      else if retry.wellFormed && retry.forwarded then Accepted else Failed
  {
    var d1 := Ingest(d, r).0;
    if Verify(d1, retry).1 {
      PruneSubset(Prune(d1, retry.verified), retry.lookedUp, r.nonce);
      PruneSubset(d1, retry.verified, r.nonce);
    }
  }

  /** Recording a nonce that is present keeps its old place, which keeps the times in order exactly when
      nothing after it is older. */
  lemma RecordingAgainKeepsOrderIff(d: Store, nonce: string, now: real)
    requires d.Valid() && Sorted(Entries(d)) && UpTo(Entries(d), now) && |d.order| <= SEEN_NONCES_MAX && nonce in d.at
    ensures Sorted(Entries(Record(d, nonce, now)))
       <==> forall i, j :: 0 <= i < j < |d.order| && d.order[i] == nonce ==> d.at[d.order[j]] == now
  {
    RecordedAgain(d, nonce, now);
  }

  lemma RecordedAgain(d: Store, nonce: string, now: real)
    requires d.Valid() && UpTo(Entries(d), now) && |d.order| <= SEEN_NONCES_MAX && nonce in d.at
    ensures var es, es' := Entries(d), Entries(Record(d, nonce, now));
      && |es'| == |es| == |d.order|
      && (forall k :: 0 <= k < |es| ==> es[k] == Entry(d.order[k], d.at[d.order[k]]) && es[k].time <= now)
      && (forall k :: 0 <= k < |es| ==> es'[k].time == if d.order[k] == nonce then now else es[k].time)
  {
    var es := Entries(d);
    assert forall k :: 0 <= k < |es| ==> es[k] in es;
  }
}
