/**
  The in-memory sliding-window rate limiter of common/rate-limit.go: a queue of accepted
  timestamps per key, and a background sweep that deletes keys idle for longer than the
  retention time. It is compared with the plain history: which requests were accepted when.
*/
module RateLimiter {
  import opened Base

  type Store = map<string, seq<int>>

  /** The arguments a caller passes with a key; `duration` is in seconds. */
  datatype Limit = Limit(max: nat, duration: int)

  // ----- the data structure -----

  /** Whether `Request` returns true. */
  function Accepts(store: Store, key: string, limit: Limit, now: int): bool {
    if key !in store || |store[key]| < limit.max || |store[key]| == 0 then true
    else now - store[key][0] >= limit.duration
  }

  /** The queue of `key` after an accepted request. */
  function Queue(store: Store, key: string, limit: Limit, now: int): seq<int> {
    if key !in store then [now]
    else if |store[key]| < limit.max || |store[key]| == 0 then store[key] + [now]
    else store[key][1..] + [now]
  }

  predicate Stale(queue: seq<int>, retention: nat, now: int) {
    |queue| == 0 || now - queue[|queue| - 1] > retention
  }

  function Swept(store: Store, retention: nat, now: int): Store {
    map k | k in store && !Stale(store[k], retention, now) :: store[k]
  }

  class InMemoryRateLimiter {
    var store: Store
    const retention: nat

    /** No stored queue is empty. */
    ghost predicate Valid()
      reads this
    {
      forall k :: k in store ==> |store[k]| > 0
    }

    constructor (retention: nat)
      ensures Valid() && store == map[] && this.retention == retention
    {
      store := map[];
      this.retention := retention;
    }

    method Request(key: string, max: nat, duration: int, now: int) returns (ok: bool)
      requires Valid()
      modifies this
      ensures Valid()
      ensures ok == Accepts(old(store), key, Limit(max, duration), now)
      ensures store == if ok then old(store)[key := Queue(old(store), key, Limit(max, duration), now)] else old(store)
    {
      if key in store {
        var queue := store[key];
        if |queue| < max {
          store := store[key := queue + [now]];
          return true;
        } else {
          if now - queue[0] >= duration {
            queue := queue[1..];
            store := store[key := queue + [now]];
            return true;
          } else {
            return false;
          }
        }
      } else {
        store := store[key := [now]];
      }
      return true;
    }

    /** One round of clearExpiredItems. */
    method Sweep(now: int)
      requires Valid()
      modifies this
      ensures Valid() && store == Swept(old(store), retention, now)
    {
      var todo := store.Keys;
      while todo != {}
        invariant todo <= old(store).Keys
        invariant store == map k | k in old(store) &&
                                  (k in todo || !Stale(old(store)[k], retention, now)) :: old(store)[k]
        decreases todo
      {
        var k :| k in todo;
        var queue := store[k];
        var size := |queue|;
        if size == 0 || now - queue[size - 1] > retention {
          store := store - {k};
        }
        todo := todo - {k};
      }
    }
  }

  // ----- runs -----

  datatype Event = Request(key: string, time: int) | Sweep(time: int)

  /** The limiter's store beside the plain history of accepted requests per key. */
  datatype State = State(store: Store, accepted: map<string, seq<int>>)

  function History(s: State, key: string): seq<int> {
    if key in s.accepted then s.accepted[key] else []
  }

  /** `retention` is None when no sweep runs. */
  function Step(s: State, e: Event, limits: string -> Limit, retention: Option<nat>): State {
    match e
    case Request(key, now) =>
      if Accepts(s.store, key, limits(key), now) then
        State(s.store[key := Queue(s.store, key, limits(key), now)], s.accepted[key := History(s, key) + [now]])
      else s
    case Sweep(now) =>
      if retention.Some? then State(Swept(s.store, retention.value, now), s.accepted) else s
  }

  function Exec(events: seq<Event>, limits: string -> Limit, retention: Option<nat>): State {
    if events == [] then State(map[], map[])
    else Step(Exec(events[..|events| - 1], limits, retention), events[|events| - 1], limits, retention)
  }

  ghost predicate Ordered(events: seq<Event>) {
    forall i, j :: 0 <= i < j < |events| ==> events[i].time <= events[j].time
  }

  // ----- the specification: count the history -----

  /** Accepted requests less than `duration` seconds old. */
  function Recent(history: seq<int>, now: int, duration: int): nat {
    if history == [] then 0
    else Recent(history[..|history| - 1], now, duration) + if now - history[|history| - 1] < duration then 1 else 0
  }

  /** A limit of 0 behaves as a limit of 1. */
  function Capacity(limit: Limit): nat {
    if limit.max == 0 then 1 else limit.max
  }

  predicate Allowed(s: State, key: string, limit: Limit, now: int) {
    Recent(History(s, key), now, limit.duration) < Capacity(limit)
  }

  lemma {:induction false} RecentConcat(a: seq<int>, b: seq<int>, now: int, d: int)
    ensures Recent(a + b, now, d) == Recent(a, now, d) + Recent(b, now, d)
  {
    if b == [] {
      assert a + b == a;
    } else {
      var k := |b| - 1;
      RecentConcat(a, b[..k], now, d);
      assert (a + b)[..|a + b| - 1] == a + b[..k];
    }
  }

  lemma {:induction false} RecentBounds(h: seq<int>, now: int, d: int)
    ensures Recent(h, now, d) <= |h|
    ensures (forall i :: 0 <= i < |h| ==> now - h[i] >= d) ==> Recent(h, now, d) == 0
    ensures (forall i :: 0 <= i < |h| ==> now - h[i] < d) ==> Recent(h, now, d) == |h|
  {
    if h != [] {
      RecentBounds(h[..|h| - 1], now, d);
    }
  }

  ghost predicate Sorted(h: seq<int>) {
    forall i, j :: 0 <= i < j < |h| ==> h[i] <= h[j]
  }

  ghost predicate Expired(h: seq<int>, clock: int, d: int) {
    forall i :: 0 <= i < |h| ==> clock - h[i] >= d
  }

  /** The queue is the tail of the history; what it has forgotten is expired unless the queue is full. */
  ghost predicate TailOf(q: seq<int>, h: seq<int>, capacity: nat, clock: int, d: int) {
    && 0 < |q| <= capacity && |q| <= |h| && h[|h| - |q|..] == q
    && (|q| < capacity ==> Expired(h[..|h| - |q|], clock, d))
  }

  ghost predicate Chronicle(h: seq<int>, clock: int) {
    Sorted(h) && forall i :: 0 <= i < |h| ==> h[i] <= clock
  }

  ghost predicate TracksKey(queue: Option<seq<int>>, h: seq<int>, capacity: nat, clock: int, d: int) {
    && Chronicle(h, clock)
    && match queue
       case None => Expired(h, clock, d)
       case Some(q) => TailOf(q, h, capacity, clock, d)
  }

  function QueueOf(store: Store, key: string): Option<seq<int>> {
    if key in store then Some(store[key]) else None
  }

  ghost predicate Tracks(s: State, key: string, limit: Limit, clock: int) {
    TracksKey(QueueOf(s.store, key), History(s, key), Capacity(limit), clock, limit.duration)
  }

  /** With a full queue, the oldest queued time alone decides. */
  lemma FullQueue(forgotten: seq<int>, q: seq<int>, now: int, d: int)
    requires Sorted(forgotten + q) && q != []
    ensures Recent(forgotten + q, now, d) < |q| <==> now - q[0] >= d
  {
    RecentConcat(forgotten, q, now, d);
    if now - q[0] >= d { OldQueue(forgotten, q, now, d); } else { YoungQueue(forgotten, q, now, d); }
  }

  lemma OldQueue(forgotten: seq<int>, q: seq<int>, now: int, d: int)
    requires Sorted(forgotten + q) && q != [] && now - q[0] >= d
    ensures Recent(forgotten, now, d) == 0 && Recent(q, now, d) < |q|
  {
    OldBefore(forgotten, q, now, d);
    RecentBounds(forgotten, now, d);
    OldFirst(q, now, d);
  }

  lemma OldBefore(forgotten: seq<int>, q: seq<int>, now: int, d: int)
    requires Sorted(forgotten + q) && q != [] && now - q[0] >= d
    ensures Expired(forgotten, now, d)
  {
    var h := forgotten + q;
    forall i | 0 <= i < |forgotten| ensures now - forgotten[i] >= d {
      assert forgotten[i] == h[i] && h[|forgotten|] == q[0];
    }
  }

  lemma OldFirst(q: seq<int>, now: int, d: int)
    requires q != [] && now - q[0] >= d
    ensures Recent(q, now, d) < |q|
  {
    assert q == [q[0]] + q[1..];
    RecentConcat([q[0]], q[1..], now, d);
    RecentBounds([q[0]], now, d);
    RecentBounds(q[1..], now, d);
  }

  lemma YoungQueue(forgotten: seq<int>, q: seq<int>, now: int, d: int)
    requires Sorted(forgotten + q) && q != [] && now - q[0] < d
    ensures Recent(q, now, d) == |q|
  {
    var h := forgotten + q;
    forall i | 0 <= i < |q| ensures now - q[i] < d { assert q[i] == h[|forgotten| + i] && q[0] == h[|forgotten|]; }
    RecentBounds(q, now, d);
  }

  /** Given the tracking invariant, the queue answers exactly as the history does. */
  lemma AnswerIsRight(s: State, key: string, limit: Limit, now: int)
    requires Tracks(s, key, limit, now)
    ensures Accepts(s.store, key, limit, now) <==> Allowed(s, key, limit, now)
  {
    var h, d := History(s, key), limit.duration;
    if key !in s.store {
      RecentBounds(h, now, d);
    } else {
      var q := s.store[key];
      var forgotten := h[..|h| - |q|];
      assert h == forgotten + q;
      if |q| == Capacity(limit) {
        FullQueue(forgotten, q, now, d);
      } else {
        QueueCovers(forgotten, q, now, d);
      }
    }
  }

  /** With everything forgotten out of the window, only queued requests are recent. */
  lemma QueueCovers(forgotten: seq<int>, q: seq<int>, now: int, d: int)
    requires Expired(forgotten, now, d)
    ensures Recent(forgotten + q, now, d) <= |q|
  {
    RecentConcat(forgotten, q, now, d);
    RecentBounds(forgotten, now, d);
    RecentBounds(q, now, d);
  }

  lemma TracksLater(s: State, key: string, limit: Limit, clock: int, now: int)
    requires Tracks(s, key, limit, clock) && clock <= now
    ensures Tracks(s, key, limit, now)
  {
  }

  lemma Grow(q: seq<int>, h: seq<int>, capacity: nat, now: int, d: int)
    requires TailOf(q, h, capacity, now, d) && |q| < capacity
    ensures TailOf(q + [now], h + [now], capacity, now, d)
  {
    assert (h + [now])[|h| - |q|..] == q + [now];
    assert (h + [now])[..|h| - |q|] == h[..|h| - |q|];
  }

  lemma Shift(q: seq<int>, h: seq<int>, capacity: nat, now: int, d: int)
    requires TailOf(q, h, capacity, now, d) && |q| == capacity
    ensures TailOf(q[1..] + [now], h + [now], capacity, now, d)
  {
    assert (h + [now])[|h| + 1 - |q|..] == q[1..] + [now];
  }

  lemma Accepted(queue: Option<seq<int>>, h: seq<int>, limit: Limit, now: int)
    requires TracksKey(queue, h, Capacity(limit), now, limit.duration)
    ensures var q' := if queue == None then [now]
                      else if |queue.value| < Capacity(limit) then queue.value + [now]
                      else queue.value[1..] + [now];
            TracksKey(Some(q'), h + [now], Capacity(limit), now, limit.duration)
  {
    var c, d := Capacity(limit), limit.duration;
    match queue
    case None => assert (h + [now])[|h|..] == [now] && (h + [now])[..|h|] == h;
    case Some(q) => if |q| < c { Grow(q, h, c, now, d); } else { Shift(q, h, c, now, d); }
  }

  /** A request changes at most its own key's queue and history. */
  lemma RequestShape(s: State, key: string, limits: string -> Limit, retention: Option<nat>, now: int, k: string)
    ensures var s' := Step(s, Request(key, now), limits, retention);
            if k == key && Accepts(s.store, key, limits(k), now) then
              && QueueOf(s'.store, k) == Some(Queue(s.store, key, limits(k), now))
              && History(s', k) == History(s, k) + [now]
            else QueueOf(s'.store, k) == QueueOf(s.store, k) && History(s', k) == History(s, k)
  {
  }

  lemma RequestTracks(s: State, key: string, limits: string -> Limit, retention: Option<nat>, now: int, k: string)
    requires Tracks(s, k, limits(k), now)
    ensures Tracks(Step(s, Request(key, now), limits, retention), k, limits(k), now)
  {
    RequestShape(s, key, limits, retention, now, k);
    if k == key && Accepts(s.store, key, limits(k), now) {
      Accepted(QueueOf(s.store, k), History(s, k), limits(k), now);
    }
  }

  lemma SweepTracks(s: State, limits: string -> Limit, retention: nat, now: int, k: string)
    requires Tracks(s, k, limits(k), now) && limits(k).duration <= retention + 1
    ensures Tracks(Step(s, Sweep(now), limits, Some(retention)), k, limits(k), now)
  {
    if k in s.store && Stale(s.store[k], retention, now) {
      var h, q := History(s, k), s.store[k];
      assert q[|q| - 1] == h[|h| - 1];
    }
  }

  /** Sweeping is harmless for a key exactly when its window is at most one second longer than the retention time. */
  predicate Retained(limit: Limit, retention: Option<nat>) {
    retention.None? || limit.duration <= retention.value + 1
  }

  lemma {:induction false} ExecTracks(events: seq<Event>, limits: string -> Limit, retention: Option<nat>, key: string,
                                      clock: int)
    requires Ordered(events) && Retained(limits(key), retention)
    requires forall i :: 0 <= i < |events| ==> events[i].time <= clock
    ensures Tracks(Exec(events, limits, retention), key, limits(key), clock)
  {
    if events != [] {
      var k := |events| - 1;
      var before, e := events[..k], events[k];
      ExecTracks(before, limits, retention, key, e.time);
      var s := Exec(before, limits, retention);
      StepTracks(s, e, limits, retention, key);
      TracksLater(Exec(events, limits, retention), key, limits(key), e.time, clock);
    }
  }

  lemma StepTracks(s: State, e: Event, limits: string -> Limit, retention: Option<nat>, key: string)
    requires Tracks(s, key, limits(key), e.time) && Retained(limits(key), retention)
    ensures Tracks(Step(s, e, limits, retention), key, limits(key), e.time)
  {
    match e
    case Request(r, now) => RequestTracks(s, r, limits, retention, now, key);
    case Sweep(now) => if retention.Some? { SweepTracks(s, limits, retention.value, now, key); }
  }

  /** Refinement: in every run with a non-decreasing clock, sweeps interleaved anywhere, a request is accepted iff fewer
      than the limit were accepted in the last `duration` seconds. */
  lemma RefinesHistory(events: seq<Event>, limits: string -> Limit, retention: Option<nat>, key: string, now: int)
    requires Ordered(events) && Retained(limits(key), retention)
    requires forall i :: 0 <= i < |events| ==> events[i].time <= now
    ensures var s := Exec(events, limits, retention);
            Accepts(s.store, key, limits(key), now) <==> Allowed(s, key, limits(key), now)
  {
    ExecTracks(events, limits, retention, key, now);
    AnswerIsRight(Exec(events, limits, retention), key, limits(key), now);
  }

  // ----- the window bound -----

  /** Accepted requests in the half-open window of `d` seconds from `start`. */
  function Window(h: seq<int>, start: int, d: int): nat {
    if h == [] then 0
    else Window(h[..|h| - 1], start, d) + if start <= h[|h| - 1] < start + d then 1 else 0
  }

  lemma {:induction false} WindowWithinRecent(h: seq<int>, start: int, now: int, d: int)
    requires start <= now < start + d && forall i :: 0 <= i < |h| ==> h[i] <= now
    ensures Window(h, start, d) <= Recent(h, now, d)
  {
    if h != [] {
      WindowWithinRecent(h[..|h| - 1], start, now, d);
    }
  }

  lemma WindowStep(h: seq<int>, start: int, now: int, d: int, capacity: nat)
    requires Chronicle(h, now) && Recent(h, now, d) < capacity && Window(h, start, d) <= capacity
    ensures Window(h + [now], start, d) <= capacity
  {
    assert (h + [now])[..|h|] == h;
    if start <= now < start + d {
      WindowWithinRecent(h, start, now, d);
    }
  }

  /** No window of `duration` seconds, at any point of any run, ever contains more accepted requests than the limit. */
  lemma {:induction false} NoOverfullWindow(events: seq<Event>, limits: string -> Limit, retention: Option<nat>,
                                            key: string, start: int)
    requires Ordered(events) && Retained(limits(key), retention)
    ensures Window(History(Exec(events, limits, retention), key), start, limits(key).duration) <= Capacity(limits(key))
  {
    if events != [] {
      var before, e := events[..|events| - 1], events[|events| - 1];
      NoOverfullWindow(before, limits, retention, key, start);
      var s := Exec(before, limits, retention);
      if e.Request? && e.key == key && Accepts(s.store, key, limits(key), e.time) {
        ExecTracks(before, limits, retention, key, e.time);
        AnswerIsRight(s, key, limits(key), e.time);
        WindowStep(History(s, key), start, e.time, limits(key).duration, Capacity(limits(key)));
      } else {
        assert History(Step(s, e, limits, retention), key) == History(s, key);
      }
    }
  }

  // ----- the retention rule is needed -----

  /** `n` requests for one key at time 0. */
  function Burst(key: string, n: nat): (events: seq<Event>)
    ensures |events| == n && forall i :: 0 <= i < n ==> events[i] == Request(key, 0)
  {
    seq(n, i => Request(key, 0))
  }

  lemma {:induction false} BurstFills(key: string, n: nat, limits: string -> Limit, retention: Option<nat>)
    requires n <= Capacity(limits(key))
    ensures var s := Exec(Burst(key, n), limits, retention);
            && History(s, key) == seq(n, i => 0) && (n > 0 ==> key in s.store && s.store[key] == seq(n, i => 0))
            && (n == 0 ==> key !in s.store)
  {
    if n > 0 {
      BurstFills(key, n - 1, limits, retention);
      assert Burst(key, n)[..n - 1] == Burst(key, n - 1);
      assert seq(n, i => 0) == seq(n - 1, i => 0) + [0];
    }
  }

  /** When a key's window is longer than that, a full burst, one sweep and one request give an answer the history
      forbids. */
  lemma ShortRetentionBreaks(limits: string -> Limit, retention: nat, key: string)
    requires limits(key).duration > retention + 1
    ensures var now := retention + 1;
            var events := Burst(key, Capacity(limits(key))) + [Sweep(now)];
            var s := Exec(events, limits, Some(retention));
            Ordered(events) && Accepts(s.store, key, limits(key), now) && !Allowed(s, key, limits(key), now)
  {
    var now, n := retention + 1, Capacity(limits(key));
    BurstSwept(key, n, limits, retention);
    RecentBounds(seq(n, i => 0), now, limits(key).duration);
  }

  /** A sweep after the retention time forgets the whole burst. */
  lemma BurstSwept(key: string, n: nat, limits: string -> Limit, retention: nat)
    requires n <= Capacity(limits(key))
    ensures var events := Burst(key, n) + [Sweep(retention + 1)];
            var s := Exec(events, limits, Some(retention));
            Ordered(events) && key !in s.store && History(s, key) == seq(n, i => 0)
  {
    BurstFills(key, n, limits, Some(retention));
    var events := Burst(key, n) + [Sweep(retention + 1)];
    assert events[..|events| - 1] == Burst(key, n);
  }

  /** The code's answer and the history's agree after `events`. */
  ghost predicate Agrees(events: seq<Event>, limits: string -> Limit, retention: Option<nat>, key: string, now: int) {
    var s := Exec(events, limits, retention);
    Accepts(s.store, key, limits(key), now) <==> Allowed(s, key, limits(key), now)
  }

  ghost predicate Before(events: seq<Event>, now: int) {
    Ordered(events) && forall i :: 0 <= i < |events| ==> events[i].time <= now
  }

  lemma Disagreement(limits: string -> Limit, retention: nat, key: string) returns (events: seq<Event>, now: int)
    requires limits(key).duration > retention + 1
    ensures Before(events, now) && !Agrees(events, limits, Some(retention), key, now)
  {
    now := retention + 1;
    events := Burst(key, Capacity(limits(key))) + [Sweep(now)];
    ShortRetentionBreaks(limits, retention, key);
  }

  /** The limiter agrees with the history in every run exactly when the retention rule of common/constants.go holds (to
      the second). */
  lemma AgreesIffRetained(limits: string -> Limit, retention: Option<nat>, key: string)
    ensures Retained(limits(key), retention) <==>
            forall events, now :: Before(events, now) ==> Agrees(events, limits, retention, key, now)
  {
    if Retained(limits(key), retention) {
      forall events, now | Before(events, now) ensures Agrees(events, limits, retention, key, now) {
        RefinesHistory(events, limits, retention, key, now);
      }
    } else {
      var events, now := Disagreement(limits, retention.value, key);
    }
  }
}
