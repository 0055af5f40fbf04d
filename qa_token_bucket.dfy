// The question-answering assistant's older sliding-window bucket: events
// are (time, weight) pairs and `credit` lowers the running total without
// touching the queue, so the total can fall below the weights actually
// queued, and a later purge subtracts those weights again.
module QaTokenBucket {
  /** One reservation: when it was made and how many units it holds. */
  datatype Event = Event(ts: real, weight: int)

  /** The bucket's whole state. */
  datatype Bucket = Bucket(capacity: int, window: real, events: seq<Event>, inWindow: int)

  /** What one pass of `_wait_for_slot`'s loop ends in. */
  datatype Attempt = Reserved | Sleep(seconds: real) | IndexError

  function Sum(es: seq<Event>): int
    decreases |es|
  {
    if |es| == 0 then 0 else es[0].weight + Sum(es[1..])
  }

  lemma {:induction false} SumAppend(a: seq<Event>, b: seq<Event>)
    ensures Sum(a + b) == Sum(a) + Sum(b)
    decreases |a|
  {
    if |a| > 0 {
      assert (a + b)[0] == a[0] && (a + b)[1..] == a[1..] + b;
      SumAppend(a[1..], b);
    } else {
      assert a + b == b;
    }
  }

  predicate NonNegative(es: seq<Event>)
  {
    forall i :: 0 <= i < |es| ==> es[i].weight >= 0
  }

  lemma {:induction false} SumNonNegative(es: seq<Event>)
    requires NonNegative(es)
    ensures Sum(es) >= 0
    decreases |es|
  {
    if |es| > 0 {
      SumNonNegative(es[1..]);
    }
  }

  predicate Aged(e: Event, now: real, window: real)
  {
    now - e.ts >= window
  }

  /** How many events at the front have aged out: all before it, and not the one at it. */
  function PurgeCount(es: seq<Event>, now: real, window: real): (k: nat)
    ensures k <= |es|
    ensures forall i :: 0 <= i < k ==> Aged(es[i], now, window)
    ensures k < |es| ==> !Aged(es[k], now, window)
    decreases |es|
  {
    if |es| > 0 && Aged(es[0], now, window) then 1 + PurgeCount(es[1..], now, window) else 0
  }

  lemma PurgeCountUnique(es: seq<Event>, now: real, window: real, k: nat)
    requires k <= |es|
    requires forall i :: 0 <= i < k ==> Aged(es[i], now, window)
    requires k < |es| ==> !Aged(es[k], now, window)
    ensures k == PurgeCount(es, now, window)
  {
  }

  /** `_purge_old(now)`: the leading aged events leave the queue and their weights the total. */
  function Purged(b: Bucket, now: real): (r: Bucket)
  {
    var k := PurgeCount(b.events, now, b.window);
    b.(events := b.events[k..], inWindow := b.inWindow - Sum(b.events[..k]))
  }

  /** One pass of `_wait_for_slot`: purge, then reserve if the total leaves room, else wait. */
  function Reserve(b: Bucket, now: real, weight: int): (Bucket, Attempt)
  {
    var p := Purged(b, now);
    if p.inWindow + weight <= p.capacity then
      (p.(events := p.events + [Event(now, weight)], inWindow := p.inWindow + weight), Reserved)
    else if |p.events| == 0 then (p, IndexError)
    else (p, Sleep(p.window - (now - p.events[0].ts) + 0.001))
  }

  /** `credit(weight)`: a positive weight lowers the total, clamped at 0; the queue is untouched. */
  function Credited(b: Bucket, weight: int): Bucket
  {
    if weight <= 0 then b else b.(inWindow := if b.inWindow - weight < 0 then 0 else b.inWindow - weight)
  }

  /** The total never counts more than the queue holds. */
  predicate Undercounts(b: Bucket)
  {
    NonNegative(b.events) && b.inWindow <= Sum(b.events)
  }

  // ---------------------------------------------------------------- properties

  /** The purge keeps the difference between queued weights and the total. */
  lemma PurgeKeepsGap(b: Bucket, now: real)
    ensures Sum(Purged(b, now).events) - Purged(b, now).inWindow == Sum(b.events) - b.inWindow
    ensures NonNegative(b.events) ==> NonNegative(Purged(b, now).events)
    ensures NonNegative(b.events) ==> Purged(b, now).inWindow <= b.inWindow
  {
    var k := PurgeCount(b.events, now, b.window);
    assert b.events == b.events[..k] + b.events[k..];
    SumAppend(b.events[..k], b.events[k..]);
    if NonNegative(b.events) {
      SumNonNegative(b.events[..k]);
    }
  }

  /**
   * A reservation is recorded only when it fits under the capacity by the
   * running total, and then appends exactly `(now, weight)`; otherwise the
   * queue is only purged. Every step keeps the total at or below the
   * queued weights.
   */
  lemma ReserveAccounts(b: Bucket, now: real, weight: int)
    ensures var (r, a) := Reserve(b, now, weight);
            (a == Reserved <==> Purged(b, now).inWindow + weight <= b.capacity) &&
            (a == Reserved ==> r.events == Purged(b, now).events + [Event(now, weight)] && r.inWindow <= b.capacity) &&
            (a != Reserved ==> r == Purged(b, now))
    ensures Undercounts(b) && weight >= 0 ==> Undercounts(Reserve(b, now, weight).0)
  {
    var p := Purged(b, now);
    PurgeKeepsGap(b, now);
    SumAppend(p.events, [Event(now, weight)]);
    assert Sum([Event(now, weight)]) == weight;
  }

  /** A credit of a positive weight keeps the queue and cannot raise the total above the queued weights. */
  lemma CreditKeepsQueue(b: Bucket, weight: int)
    ensures Credited(b, weight).events == b.events
    ensures weight <= 0 ==> Credited(b, weight) == b
    ensures Credited(b, weight).inWindow >= 0 || Credited(b, weight).inWindow == b.inWindow
    ensures Undercounts(b) ==> Undercounts(Credited(b, weight))
  {
    if Undercounts(b) {
      SumNonNegative(b.events);
    }
  }

  /**
   * A credit followed by the purge of the credited event drives the total
   * below zero: the credit removed nothing from the queue, so the purge
   * subtracts the same weight a second time.
   */
  lemma CreditThenPurgeGoesNegative(capacity: int, window: real, t: real, w: int, now: real)
    requires w > 0 && now - t >= window
    ensures var b := Bucket(capacity, window, [Event(t, w)], w);
            Credited(b, w).inWindow == 0 &&
            Purged(Credited(b, w), now).inWindow == -w
  {
    var c := Bucket(capacity, window, [Event(t, w)], 0);
    assert PurgeCount(c.events, now, window) == 1;
    assert c.events[..1] == [Event(t, w)];
    assert Sum([Event(t, w)]) == w by {
      assert [Event(t, w)][1..] == [];
    }
  }

  /**
   * Because a credit leaves the event queued, an empty bucket can admit two
   * full-capacity reservations inside one window: the queue then holds
   * twice the capacity.
   */
  lemma CreditOverAdmits(capacity: nat, window: real, t0: real, t1: real)
    requires 0.0 < window && t1 - t0 < window
    ensures var b0 := Bucket(capacity, window, [], 0);
            var r1 := Reserve(b0, t0, capacity);
            var r2 := Reserve(Credited(r1.0, capacity), t1, capacity);
            r1.1 == Reserved && r2.1 == Reserved &&
            r2.0.events == [Event(t0, capacity), Event(t1, capacity)] && Sum(r2.0.events) == 2 * capacity
  {
    var b0 := Bucket(capacity, window, [], 0);
    var e1, e2 := Event(t0, capacity), Event(t1, capacity);
    ReserveFits(b0, t0, capacity);
    assert [] + [e1] == [e1];
    var c := Bucket(capacity, window, [e1], 0);
    assert Credited(Reserve(b0, t0, capacity).0, capacity) == c;
    ReserveFits(c, t1, capacity);
    assert Sum([e1, e2]) == 2 * capacity by {
      assert [e1, e2][1..] == [e2];
      assert [e2][1..] == [];
    }
  }

  /** With no aged event at the front, a reservation that fits appends `(now, weight)` to an unchanged queue. */
  lemma ReserveFits(b: Bucket, now: real, weight: int)
    requires |b.events| == 0 || !Aged(b.events[0], now, b.window)
    requires b.inWindow + weight <= b.capacity
    ensures Reserve(b, now, weight).1 == Reserved
    ensures Reserve(b, now, weight).0.events == b.events + [Event(now, weight)]
    ensures Reserve(b, now, weight).0.inWindow == b.inWindow + weight
    ensures Reserve(b, now, weight).0.capacity == b.capacity && Reserve(b, now, weight).0.window == b.window
  {
    assert PurgeCount(b.events, now, b.window) == 0;
    assert Sum(b.events[..0]) == 0;
  }

  /** The bucket: `capacity` units per `window` seconds. */
  class TokenBucket {
    const capacity: int
    const window: real
    var events: seq<Event>
    var inWindow: int

    function State(): Bucket
      reads this
    {
      Bucket(capacity, window, events, inWindow)
    }

    constructor(capacity: int, window: real)
      ensures State() == Bucket(capacity, window, [], 0)
    {
      this.capacity := capacity;
      this.window := window;
      events := [];
      inWindow := 0;
    }

    method Purge(now: real)
      modifies this
      ensures State() == Purged(old(State()), now)
    {
      ghost var k := 0;
      while |events| > 0 && now - events[0].ts >= window
        invariant 0 <= k <= |old(events)| && events == old(events)[k..]
        invariant forall i :: 0 <= i < k ==> Aged(old(events)[i], now, window)
        invariant inWindow == old(inWindow) - Sum(old(events)[..k])
        decreases |events|
      {
        var weight := events[0].weight;
        assert old(events)[k] == events[0];
        assert old(events)[..k + 1] == old(events)[..k] + [events[0]];
        SumAppend(old(events)[..k], [events[0]]);
        events := events[1..];
        inWindow := inWindow - weight;
        k := k + 1;
        assert events == old(events)[k..];
      }
      PurgeCountUnique(old(events), now, window, k);
    }

    /** One pass of `_wait_for_slot`. */
    method TryReserve(now: real, weight: int) returns (a: Attempt)
      modifies this
      ensures (State(), a) == Reserve(old(State()), now, weight)
    {
      Purge(now);
      if inWindow + weight <= capacity {
        events := events + [Event(now, weight)];
        inWindow := inWindow + weight;
        return Reserved;
      }
      if |events| == 0 {
        return IndexError;
      }
      return Sleep(window - (now - events[0].ts) + 0.001);
    }

    method Credit(weight: int)
      modifies this
      ensures State() == Credited(old(State()), weight)
    {
      if weight <= 0 {
        return;
      }
      inWindow := if inWindow - weight < 0 then 0 else inWindow - weight;
    }
  }
}
