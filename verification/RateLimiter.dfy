// The sliding-window limiter of ross_ai/hardening.py, against a reference limiter that keeps
// every accepted hit. Times are reals; the two agree while the clock does not run backwards.
module RateLimiting {

  // One call of `allow`.
  datatype Call = Call(key: string, at: real)

  // ----- The reference limiter: it keeps every accepted hit forever -----

  function Recent(hits: seq<real>, at: real, window: real): (n: nat)
    ensures n <= |hits|
  {
    if hits == [] then 0
    else Recent(hits[..|hits| - 1], at, window) + if at - hits[|hits| - 1] > window then 0 else 1
  }

  predicate Admits(hits: seq<real>, at: real, limit: int, window: real)
  {
    Recent(hits, at, window) < limit
  }

  // The accepted hits of one key over a run.
  function Accepted(calls: seq<Call>, key: string, limit: int, window: real): seq<real>
  {
    if calls == [] then []
    else
      var last := calls[|calls| - 1];
      var hits := Accepted(calls[..|calls| - 1], key, limit, window);
      if last.key == key && Admits(hits, last.at, limit, window) then hits + [last.at] else hits
  }

  ghost predicate Ordered(calls: seq<Call>)
  {
    forall i, j :: 0 <= i <= j < |calls| ==> calls[i].at <= calls[j].at
  }

  predicate Sorted(hits: seq<real>)
  {
    forall i, j :: 0 <= i <= j < |hits| ==> hits[i] <= hits[j]
  }

  // ----- What the reference limiter guarantees -----

  lemma {:induction false} AcceptedSorted(calls: seq<Call>, key: string, limit: int, window: real)
    requires Ordered(calls)
    ensures Sorted(Accepted(calls, key, limit, window))
    ensures forall i :: 0 <= i < |Accepted(calls, key, limit, window)| ==>
      calls != [] && Accepted(calls, key, limit, window)[i] <= calls[|calls| - 1].at
  {
    if calls != [] {
      AcceptedSorted(calls[..|calls| - 1], key, limit, window);
    }
  }

  lemma {:induction false} RecentConcat(a: seq<real>, b: seq<real>, at: real, window: real)
    ensures Recent(a + b, at, window) == Recent(a, at, window) + Recent(b, at, window)
    decreases |b|
  {
    if b == [] {
      assert a + b == a;
    } else {
      assert (a + b)[..|a + b| - 1] == a + b[..|b| - 1];
      RecentConcat(a, b[..|b| - 1], at, window);
    }
  }

  lemma {:induction false} RecentNone(hits: seq<real>, at: real, window: real)
    requires forall i :: 0 <= i < |hits| ==> at - hits[i] > window
    ensures Recent(hits, at, window) == 0
  {
    if hits != [] {
      RecentNone(hits[..|hits| - 1], at, window);
    }
  }

  lemma {:induction false} RecentAll(hits: seq<real>, at: real, window: real)
    requires forall i :: 0 <= i < |hits| ==> at - hits[i] <= window
    ensures Recent(hits, at, window) == |hits|
  {
    if hits != [] {
      RecentAll(hits[..|hits| - 1], at, window);
    }
  }

  // Any limit + 1 consecutive accepted hits of a key span more than the window.
  lemma {:induction false} Spacing(calls: seq<Call>, key: string, limit: int, window: real, i: nat)
    requires Ordered(calls) && limit >= 1
    requires i + limit < |Accepted(calls, key, limit, window)|
    ensures Accepted(calls, key, limit, window)[i + limit] - Accepted(calls, key, limit, window)[i] > window
    decreases |calls|
  {
    var last := calls[|calls| - 1];
    var hits := Accepted(calls[..|calls| - 1], key, limit, window);
    if i + limit < |hits| {
      Spacing(calls[..|calls| - 1], key, limit, window, i);
    } else if last.at - hits[i] <= window {
      AcceptedSorted(calls[..|calls| - 1], key, limit, window);
      RecentConcat(hits[..i], hits[i..], last.at, window);
      assert hits == hits[..i] + hits[i..];
      RecentAll(hits[i..], last.at, window);
      assert false;
    }
  }

  function Only(calls: seq<Call>, key: string): seq<Call>
  {
    if calls == [] then []
    else
      var last := calls[|calls| - 1];
      Only(calls[..|calls| - 1], key) + if last.key == key then [last] else []
  }

  // A key's hits depend on its own calls alone.
  lemma {:induction false} KeysIndependent(calls: seq<Call>, key: string, limit: int, window: real)
    ensures Accepted(Only(calls, key), key, limit, window) == Accepted(calls, key, limit, window)
  {
    if calls != [] {
      var front, last := calls[..|calls| - 1], calls[|calls| - 1];
      KeysIndependent(front, key, limit, window);
      if last.key == key {
        assert Only(calls, key)[..|Only(calls, key)| - 1] == Only(front, key);
      } else {
        assert Only(calls, key) == Only(front, key);
      }
    }
  }

  predicate Refused(calls: seq<Call>, i: nat, limit: int, window: real)
    requires i < |calls|
  {
    !Admits(Accepted(calls[..i], calls[i].key, limit, window), calls[i].at, limit, window)
  }

  // A refused call leaves no trace: the run without it accepts the same hits for every key.
  lemma {:induction false} RefusedLeavesNoTrace(calls: seq<Call>, i: nat, key: string, limit: int, window: real)
    requires i < |calls| && Refused(calls, i, limit, window)
    ensures Accepted(calls[..i] + calls[i + 1..], key, limit, window) == Accepted(calls, key, limit, window)
    decreases |calls|
  {
    hide Accepted, Admits;
    var n := |calls| - 1;
    var front, last := calls[..n], calls[n];
    assert calls == front + [last];
    AcceptedNext(front, last, key, limit, window);
    if i == n {
      assert calls[..i] + calls[i + 1..] == front;
    } else {
      assert front[..i] == calls[..i] && front[i] == calls[i];
      RefusedLeavesNoTrace(front, i, key, limit, window);
      var rest := front[..i] + front[i + 1..];
      AcceptedNext(rest, last, key, limit, window);
      assert calls[..i] + calls[i + 1..] == rest + [last];
    }
  }

  lemma AcceptedNext(calls: seq<Call>, call: Call, key: string, limit: int, window: real)
    ensures var hits := Accepted(calls, key, limit, window);
      Accepted(calls + [call], key, limit, window)
        == if call.key == key && Admits(hits, call.at, limit, window) then hits + [call.at] else hits
  {
    hide Admits;
    assert (calls + [call])[..|calls|] == calls;
  }

  // ----- The limiter of the source, with any clock -----

  // A missing key reads as an empty queue.
  function Queue(hits: map<string, seq<real>>, key: string): seq<real>
  {
    if key in hits then hits[key] else []
  }

  // The queue without its expired front.
  function Purged(q: seq<real>, at: real, window: real): seq<real>
    decreases |q|
  {
    if q != [] && at - q[0] > window then Purged(q[1..], at, window) else q
  }

  predicate Allowed(hits: map<string, seq<real>>, call: Call, limit: int, window: real)
  {
    |Purged(Queue(hits, call.key), call.at, window)| < limit
  }

  function AfterCall(hits: map<string, seq<real>>, call: Call, limit: int, window: real): map<string, seq<real>>
  {
    var q := Purged(Queue(hits, call.key), call.at, window);
    hits[call.key := if |q| < limit then q + [call.at] else q]
  }

  function Hits(calls: seq<Call>, limit: int, window: real): map<string, seq<real>>
  {
    if calls == [] then map[]
    else AfterCall(Hits(calls[..|calls| - 1], limit, window), calls[|calls| - 1], limit, window)
  }

  // The times at which the limiter let the key through.
  function LetThrough(calls: seq<Call>, key: string, limit: int, window: real): seq<real>
  {
    if calls == [] then []
    else
      var front, call := calls[..|calls| - 1], calls[|calls| - 1];
      LetThrough(front, key, limit, window)
      + if call.key == key && Allowed(Hits(front, limit, window), call, limit, window) then [call.at] else []
  }

  function Capacity(limit: int): nat
  {
    if limit > 0 then limit else 0
  }

  // Some call of the key saw the hit expired.
  ghost predicate SeenExpired(calls: seq<Call>, key: string, hit: real, window: real)
  {
    exists i :: 0 <= i < |calls| && calls[i].key == key && calls[i].at - hit > window
  }

  // What a queue holds: the latest times let through, except those that some call saw expired.
  ghost predicate Holds(q: seq<real>, through: seq<real>, calls: seq<Call>, key: string, window: real)
  {
    && |q| <= |through| && q == through[|through| - |q|..]
    && forall i :: 0 <= i < |through| - |q| ==> SeenExpired(calls, key, through[i], window)
  }

  lemma SeenExpiredStill(calls: seq<Call>, call: Call, key: string, hit: real, window: real)
    requires SeenExpired(calls, key, hit, window)
    ensures SeenExpired(calls + [call], key, hit, window)
  {
    var i :| 0 <= i < |calls| && calls[i].key == key && calls[i].at - hit > window;
    assert (calls + [call])[i] == calls[i];
  }

  lemma {:induction false} PurgedHolds(
    q: seq<real>, through: seq<real>, calls: seq<Call>, call: Call, window: real)
    requires Holds(q, through, calls + [call], call.key, window)
    ensures Holds(Purged(q, call.at, window), through, calls + [call], call.key, window)
    ensures |Purged(q, call.at, window)| <= |q|
    decreases |q|
  {
    if q != [] && call.at - q[0] > window {
      assert (calls + [call])[|calls|] == call;
      assert q[0] == through[|through| - |q|] && SeenExpired(calls + [call], call.key, q[0], window);
      PurgedHolds(q[1..], through, calls, call, window);
    }
  }

  lemma HoldsStill(q: seq<real>, through: seq<real>, calls: seq<Call>, call: Call, key: string, window: real)
    requires Holds(q, through, calls, key, window)
    ensures Holds(q, through, calls + [call], key, window)
  {
    hide SeenExpired;
    forall i | 0 <= i < |through| - |q| ensures SeenExpired(calls + [call], key, through[i], window) {
      SeenExpiredStill(calls, call, key, through[i], window);
    }
  }

  lemma HoldsHit(q: seq<real>, through: seq<real>, calls: seq<Call>, key: string, hit: real, window: real)
    requires Holds(q, through, calls, key, window)
    ensures Holds(q + [hit], through + [hit], calls, key, window)
  {
    hide SeenExpired;
  }

  // With any clock, a queue is at most the limit long and holds the latest times its key was
  // let through; a time leaves it only once some call of the key saw it expired.
  lemma {:induction false} QueueHolds(calls: seq<Call>, key: string, limit: int, window: real)
    ensures var q := Queue(Hits(calls, limit, window), key);
      |q| <= Capacity(limit) && Holds(q, LetThrough(calls, key, limit, window), calls, key, window)
  {
    hide Holds, Purged, SeenExpired;
    if calls != [] {
      var front, call := calls[..|calls| - 1], calls[|calls| - 1];
      QueueHolds(front, key, limit, window);
      assert calls == front + [call];
      if call.key == key {
        QueueHoldsOwn(front, call, limit, window);
      } else {
        var through := LetThrough(front, key, limit, window);
        HoldsStill(Queue(Hits(front, limit, window), key), through, front, call, key, window);
        assert through + [] == through;
      }
    } else {
      HoldsNothing(key, window);
    }
  }

  lemma HoldsNothing(key: string, window: real)
    ensures Holds([], [], [], key, window)
  {
  }

  lemma QueueHoldsOwn(front: seq<Call>, call: Call, limit: int, window: real)
    requires var q := Queue(Hits(front, limit, window), call.key);
      |q| <= Capacity(limit) && Holds(q, LetThrough(front, call.key, limit, window), front, call.key, window)
    ensures var calls := front + [call]; var q := Queue(Hits(calls, limit, window), call.key);
      |q| <= Capacity(limit) && Holds(q, LetThrough(calls, call.key, limit, window), calls, call.key, window)
  {
    hide Holds, Purged, SeenExpired, Hits, LetThrough;
    var calls := front + [call];
    var q, through := Queue(Hits(front, limit, window), call.key), LetThrough(front, call.key, limit, window);
    HitsNext(front, call, limit, window);
    LetThroughNext(front, call, limit, window);
    HoldsStill(q, through, front, call, call.key, window);
    PurgedHolds(q, through, front, call, window);
    HoldsHit(Purged(q, call.at, window), through, calls, call.key, call.at, window);
  }

  lemma HitsNext(calls: seq<Call>, call: Call, limit: int, window: real)
    ensures Hits(calls + [call], limit, window) == AfterCall(Hits(calls, limit, window), call, limit, window)
  {
    hide AfterCall;
    assert (calls + [call])[..|calls|] == calls;
  }

  lemma LetThroughNext(calls: seq<Call>, call: Call, limit: int, window: real)
    ensures LetThrough(calls + [call], call.key, limit, window)
         == if Allowed(Hits(calls, limit, window), call, limit, window)
            then LetThrough(calls, call.key, limit, window) + [call.at] else LetThrough(calls, call.key, limit, window)
  {
    hide Allowed;
    assert (calls + [call])[..|calls|] == calls;
  }

  // ----- With a clock that does not run backwards it is the reference limiter -----

  lemma {:induction false} ExpiredThen(calls: seq<Call>, key: string, hit: real, at: real, window: real)
    requires Ordered(calls) && (calls != [] ==> calls[|calls| - 1].at <= at) && SeenExpired(calls, key, hit, window)
    ensures at - hit > window
    decreases |calls|
  {
    var i :| 0 <= i < |calls| && calls[i].key == key && calls[i].at - hit > window;
    if i < |calls| - 1 {
      var front := calls[..|calls| - 1];
      assert front[i] == calls[i];
      ExpiredThen(front, key, hit, calls[|calls| - 1].at, window);
    }
  }

  lemma {:induction false} PurgedFront(q: seq<real>, at: real, window: real)
    ensures var p := Purged(q, at, window);
      |p| <= |q| && p == q[|q| - |p|..] && (p != [] ==> at - p[0] <= window)
      && forall i :: 0 <= i < |q| - |p| ==> at - q[i] > window
    decreases |q|
  {
    if q != [] && at - q[0] > window {
      PurgedFront(q[1..], at, window);
      var p := Purged(q[1..], at, window);
      forall i | 0 <= i < |q| - |p| ensures at - q[i] > window {
        if i > 0 {
          assert q[i] == q[1..][i - 1];
        }
      }
    }
  }

  // What remains of the accepted hits when all dropped ones are out of the window, and the
  // front is not, is exactly the recent hits.
  lemma QueueLength(q: seq<real>, accepted: seq<real>, at: real, window: real)
    requires Sorted(accepted) && |q| <= |accepted| && q == accepted[|accepted| - |q|..]
    requires forall i :: 0 <= i < |accepted| - |q| ==> at - accepted[i] > window
    requires q == [] || at - q[0] <= window
    ensures Recent(accepted, at, window) == |q|
  {
    hide Recent;
    var dropped := |accepted| - |q|;
    assert accepted == accepted[..dropped] + accepted[dropped..];
    RecentConcat(accepted[..dropped], q, at, window);
    RecentNone(accepted[..dropped], at, window);
    RecentAll(q, at, window);
  }

  lemma PurgedDropsExpired(calls: seq<Call>, call: Call, accepted: seq<real>, limit: int, window: real)
    requires Ordered(calls) && (calls != [] ==> calls[|calls| - 1].at <= call.at)
    requires Holds(Queue(Hits(calls, limit, window), call.key), accepted, calls, call.key, window)
    ensures var p := Purged(Queue(Hits(calls, limit, window), call.key), call.at, window);
      && |p| <= |accepted| && p == accepted[|accepted| - |p|..] && (p == [] || call.at - p[0] <= window)
      && forall i :: 0 <= i < |accepted| - |p| ==> call.at - accepted[i] > window
  {
    var q := Queue(Hits(calls, limit, window), call.key);
    PurgedFront(q, call.at, window);
    var p := Purged(q, call.at, window);
    hide Hits, Purged, SeenExpired, Ordered;
    forall i | 0 <= i < |accepted| - |p| ensures call.at - accepted[i] > window {
      if i < |accepted| - |q| {
        ExpiredThen(calls, call.key, accepted[i], call.at, window);
      } else {
        assert accepted[i] == q[i - (|accepted| - |q|)];
      }
    }
  }

  lemma AllowedMeans(calls: seq<Call>, call: Call, limit: int, window: real)
    requires Ordered(calls) && (calls != [] ==> calls[|calls| - 1].at <= call.at)
    requires LetThrough(calls, call.key, limit, window) == Accepted(calls, call.key, limit, window)
    ensures Allowed(Hits(calls, limit, window), call, limit, window)
      <==> Admits(Accepted(calls, call.key, limit, window), call.at, limit, window)
  {
    hide Hits, Purged, LetThrough, Accepted, Holds, Recent, Ordered;
    var accepted := Accepted(calls, call.key, limit, window);
    QueueHolds(calls, call.key, limit, window);
    AcceptedSorted(calls, call.key, limit, window);
    PurgedDropsExpired(calls, call, accepted, limit, window);
    QueueLength(Purged(Queue(Hits(calls, limit, window), call.key), call.at, window), accepted, call.at, window);
  }

  // The limiter lets through exactly the accepted hits.
  lemma {:induction false} LimiterIsReference(calls: seq<Call>, key: string, limit: int, window: real)
    requires Ordered(calls)
    ensures LetThrough(calls, key, limit, window) == Accepted(calls, key, limit, window)
    decreases |calls|
  {
    hide Hits, Allowed, Admits;
    if calls != [] {
      var front, call := calls[..|calls| - 1], calls[|calls| - 1];
      LimiterIsReference(front, key, limit, window);
      if call.key == key {
        AllowedMeans(front, call, limit, window);
      }
    }
  }

  lemma AllowedExact(calls: seq<Call>, call: Call, limit: int, window: real)
    requires Ordered(calls + [call])
    ensures Allowed(Hits(calls, limit, window), call, limit, window)
      <==> Admits(Accepted(calls, call.key, limit, window), call.at, limit, window)
  {
    assert forall i :: 0 <= i < |calls| ==> calls[i] == (calls + [call])[i];
    assert (calls + [call])[|calls|] == call;
    LimiterIsReference(calls, call.key, limit, window);
    AllowedMeans(calls, call, limit, window);
  }

  class RateLimiter {
    const limit: int
    const window: real
    var hits: map<string, seq<real>>
    ghost var calls: seq<Call>

    ghost predicate Valid()
      reads this
    {
      hits == Hits(calls, limit, window)
    }

    constructor (limit: int, window: real)
      ensures Valid() && calls == [] && this.limit == limit && this.window == window
    {
      this.limit, this.window := limit, window;
      hits, calls := map[], [];
    }

    // With a clock that has not run backwards so far, accepts exactly when fewer than the limit
    // of the key's accepted hits are recent.
    method Allow(key: string, now: real) returns (ok: bool)
      requires Valid()
      modifies this
      ensures Valid() && calls == old(calls) + [Call(key, now)]
      ensures ok == Allowed(old(hits), Call(key, now), limit, window)
      ensures Ordered(calls) ==> ok == Admits(Accepted(old(calls), key, limit, window), now, limit, window)
      ensures forall k :: k != key ==> Queue(hits, k) == Queue(old(hits), k)
      ensures |Queue(hits, key)| <= Capacity(limit)
    {
      hide Ordered, Accepted, Admits, Hits, Holds, LetThrough;
      ghost var call := Call(key, now);
      if Ordered(calls + [call]) {
        AllowedExact(calls, call, limit, window);
      }
      var q := Queue(hits, key);
      while q != [] && now - q[0] > window
        invariant hits == old(hits) && calls == old(calls)
        invariant Purged(q, now, window) == Purged(Queue(hits, key), now, window)
      {
        q := q[1..];
      }
      if |q| >= limit {
        ok := false;
      } else {
        q := q + [now];
        ok := true;
      }
      HitsNext(calls, call, limit, window);
      hits := hits[key := q];
      calls := calls + [call];
      QueueHolds(calls, key, limit, window);
    }
  }

  // ----- The window rule by places in the queue -----

  // A hit is refused exactly while the last `limit` accepted ones all lie within the window.
  lemma AdmitsExact(hits: seq<real>, at: real, limit: int, window: real)
    requires Sorted(hits) && limit >= 1
    ensures Admits(hits, at, limit, window) <==> |hits| < limit || at - hits[|hits| - limit] > window
  {
    if |hits| >= limit {
      var n := |hits| - limit;
      if at - hits[n] > window {
        RecentConcat(hits[..n + 1], hits[n + 1..], at, window);
        assert hits == hits[..n + 1] + hits[n + 1..];
        RecentNone(hits[..n + 1], at, window);
      } else {
        RecentConcat(hits[..n], hits[n..], at, window);
        assert hits == hits[..n] + hits[n..];
        RecentAll(hits[n..], at, window);
      }
    }
  }
}
