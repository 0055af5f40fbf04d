// The retrieval assistant's sliding-window token bucket: every reservation
// is an event (time, weight, id) in a queue, a running total counts the
// weights still in the window, and a reservation can be refunded by its id.
// Time is passed in explicitly; the lock and the sleep between attempts are
// the caller's concern.
module IrTokenBucket {
  import opened Wrappers
  import opened Decimal

  /** One reservation: when it was made, how many units it holds, and its serial number. */
  datatype Event = Event(ts: real, weight: int, num: nat)

  /** The id handed to the caller: the serial number in decimal. */
  function EventId(e: Event): string
  {
    ToDecimal(e.num)
  }

  function Sum(es: seq<Event>): int
    decreases |es|
  {
    if |es| == 0 then 0 else es[0].weight + Sum(es[1..])
  }

  lemma {:induction false} SumAppend(a: seq<Event>, b: seq<Event>)
    ensures Sum(a + b) == Sum(a) + Sum(b)
    decreases |a|
  {
    if |a| > 0 {
      assert (a + b)[0] == a[0] && (a + b)[1..] == a[1..] + b;
      SumAppend(a[1..], b);
    } else {
      assert a + b == b;
    }
  }

  lemma {:induction false} SumNonNegative(es: seq<Event>)
    requires NonNegative(es)
    ensures Sum(es) >= 0
    decreases |es|
  {
    if |es| > 0 {
      SumNonNegative(es[1..]);
    }
  }

  predicate NonNegative(es: seq<Event>)
  {
    forall i :: 0 <= i < |es| ==> es[i].weight >= 0
  }

  /**
   * Serial numbers strictly increase along the queue and are all below
   * `next`: the newest is below `next`, and the rest below the newest.
   */
  predicate Ascending(es: seq<Event>, next: nat)
    decreases |es|
  {
    |es| == 0 || (es[|es| - 1].num < next && Ascending(es[..|es| - 1], es[|es| - 1].num))
  }

  /** `Ascending`, position by position. */
  predicate AscendingAt(es: seq<Event>, next: nat)
  {
    (forall i :: 0 <= i < |es| ==> es[i].num < next) &&
    (forall i, j :: 0 <= i < j < |es| ==> es[i].num < es[j].num)
  }

  lemma {:induction false} AscendingAll(es: seq<Event>, next: nat)
    requires Ascending(es, next)
    ensures AscendingAt(es, next)
    decreases |es|
  {
    if |es| > 0 {
      var init := es[..|es| - 1];
      AscendingAll(init, es[|es| - 1].num);
      assert forall i :: 0 <= i < |init| ==> init[i] == es[i];
    }
  }

  lemma {:induction false} AllAscending(es: seq<Event>, next: nat)
    requires AscendingAt(es, next)
    ensures Ascending(es, next)
    decreases |es|
  {
    if |es| > 0 {
      var init := es[..|es| - 1];
      assert forall i :: 0 <= i < |init| ==> init[i] == es[i];
      AllAscending(init, es[|es| - 1].num);
    }
  }

  /** Dropping the oldest event keeps the queue ascending. */
  lemma AscendingTail(es: seq<Event>, next: nat)
    requires Ascending(es, next) && |es| > 0
    ensures Ascending(es[1..], next)
  {
    AscendingAll(es, next);
    AllAscending(es[1..], next);
  }

  /** A new event under the next serial number keeps the queue ascending. */
  lemma AscendingPush(es: seq<Event>, next: nat, e: Event)
    requires Ascending(es, next) && e.num == next
    ensures Ascending(es + [e], next + 1)
  {
    assert (es + [e])[..|es|] == es;
  }

  predicate Aged(e: Event, now: real, window: real)
  {
    now - e.ts >= window
  }

  /** How many events at the front of the queue have aged out: all before it, and not the one at it. */
  function PurgeCount(es: seq<Event>, now: real, window: real): (k: nat)
    ensures k <= |es|
    ensures forall i :: 0 <= i < k ==> Aged(es[i], now, window)
    ensures k < |es| ==> !Aged(es[k], now, window)
    decreases |es|
  {
    if |es| > 0 && Aged(es[0], now, window) then 1 + PurgeCount(es[1..], now, window) else 0
  }

  /** Any count with the same two properties is `PurgeCount`. */
  lemma PurgeCountUnique(es: seq<Event>, now: real, window: real, k: nat)
    requires k <= |es|
    requires forall i :: 0 <= i < k ==> Aged(es[i], now, window)
    requires k < |es| ==> !Aged(es[k], now, window)
    ensures k == PurgeCount(es, now, window)
  {

  }

  /** The queue after `_purge_old(now)`. */
  function Purged(es: seq<Event>, now: real, window: real): seq<Event>
  {
    es[PurgeCount(es, now, window)..]
  }

  /** The events an id refers to form at most one position, found scanning from the newest. */
  function LastMatch(es: seq<Event>, id: string): (r: Option<nat>)
    ensures r.None? <==> forall i :: 0 <= i < |es| ==> EventId(es[i]) != id
    ensures r.Some? ==> r.value < |es| && EventId(es[r.value]) == id &&
                        forall j :: r.value < j < |es| ==> EventId(es[j]) != id
    decreases |es|
  {
    if |es| == 0 then None
    else if EventId(es[|es| - 1]) == id then Some(|es| - 1)
    else
      var r := LastMatch(es[..|es| - 1], id);
      assert forall i :: 0 <= i < |es| - 1 ==> es[..|es| - 1][i] == es[i];
      r
  }

  /** The newest position holding `id` is what `LastMatch` finds. */
  lemma LastMatchAt(es: seq<Event>, id: string, i: nat)
    requires i < |es| && EventId(es[i]) == id
    requires forall j :: i < j < |es| ==> EventId(es[j]) != id
    ensures LastMatch(es, id) == Some(i)
  {

  }

  /** The whole event when no weight is given, else at most the event's weight. */
  function Refund(e: Event, weight: Option<int>): int
  {
    if weight.None? then e.weight else Min(weight.value, e.weight)
  }

  function Min(a: int, b: int): int { if a <= b then a else b }

  /** The refund `credit_by_id` takes from the queue for `id`; 0 when no event has the id. */
  function Refunded(es: seq<Event>, id: string, weight: Option<int>): int
  {
    match LastMatch(es, id)
    case None => 0
    case Some(i) => Refund(es[i], weight)
  }

  /** The queue after the refund: a fully refunded event is removed, a partly refunded one shrinks. */
  function AfterCredit(es: seq<Event>, id: string, weight: Option<int>): seq<Event>
  {
    match LastMatch(es, id)
    case None => es
    case Some(i) =>
      var refund := Refund(es[i], weight);
      if refund == es[i].weight then es[..i] + es[i + 1..]
      else es[i := es[i].(weight := es[i].weight - refund)]
  }

  /** What one pass of `_reserve`'s loop ends in. */
  datatype Attempt = Granted(id: string) | Sleep(seconds: real) | IndexError

  // ---------------------------------------------------------------- properties

  /** An event that has not aged out survives the purge behind the events the purge keeps. */
  lemma PurgedKeepsFresh(es: seq<Event>, e: Event, now: real, window: real)
    requires !Aged(e, now, window)
    ensures Purged(es + [e], now, window) == Purged(es, now, window) + [e]
  {
    var k := PurgeCount(es, now, window);
    PurgeCountUnique(es + [e], now, window, k);
    assert (es + [e])[k..] == es[k..] + [e];
  }

  /** Crediting the id of the newest event refunds that event and leaves the rest of the queue alone. */
  lemma CreditNewest(es: seq<Event>, e: Event, weight: Option<int>)
    ensures Refunded(es + [e], EventId(e), weight) == Refund(e, weight)
    ensures AfterCredit(es + [e], EventId(e), weight) ==
            if Refund(e, weight) == e.weight then es
            else es + [e.(weight := e.weight - Refund(e, weight))]
  {
    var q := es + [e];
    assert LastMatch(q, EventId(e)) == Some(|es|);
    assert q[..|es|] == es && q[|es| + 1..] == [];
  }

  /** An id no queued event carries is credited as a no-op, so an expired reservation is never refunded twice. */
  lemma CreditExpired(es: seq<Event>, n: nat, weight: Option<int>)
    requires forall i :: 0 <= i < |es| ==> es[i].num != n
    ensures Refunded(es, ToDecimal(n), weight) == 0
    ensures AfterCredit(es, ToDecimal(n), weight) == es
  {
    forall i | 0 <= i < |es|
      ensures EventId(es[i]) != ToDecimal(n)
    {
      if EventId(es[i]) == ToDecimal(n) {
        ToDecimalInjective(es[i].num, n);
      }
    }
  }

  /** Distinct positions of an ascending queue carry distinct ids. */
  lemma UniqueIds(es: seq<Event>, next: nat, i: nat, j: nat)
    requires Ascending(es, next) && i < |es| && j < |es| && i != j
    ensures EventId(es[i]) != EventId(es[j])
  {
    AscendingAll(es, next);
    if EventId(es[i]) == EventId(es[j]) {
      ToDecimalInjective(es[i].num, es[j].num);
    }
  }

  /** Removing the event at `i` takes its weight out of the sum. */
  lemma SumRemove(es: seq<Event>, i: nat)
    requires i < |es|
    ensures Sum(es[..i] + es[i + 1..]) == Sum(es) - es[i].weight
  {
    var pre, post := es[..i], es[i + 1..];
    var mid := [es[i]] + post;
    assert es == pre + mid;
    assert mid[0] == es[i] && mid[1..] == post;
    assert Sum(mid) == es[i].weight + Sum(post);
    SumAppend(pre, mid);
    SumAppend(pre, post);
  }

  /** Changing the weight at `i` changes the sum by the difference. */
  lemma SumUpdate(es: seq<Event>, i: nat, w: int)
    requires i < |es|
    ensures Sum(es[i := es[i].(weight := w)]) == Sum(es) - es[i].weight + w
  {
    var r := es[i := es[i].(weight := w)];
    var pre, post := es[..i], es[i + 1..];
    assert r == pre + ([r[i]] + post);
    assert es == pre + ([es[i]] + post);
    SumAppend(pre, [r[i]] + post);
    SumAppend([r[i]], post);
    SumAppend(pre, [es[i]] + post);
    SumAppend([es[i]], post);
  }

  /** The refund takes exactly `Refunded` units out of the queue, and never makes a weight negative. */
  lemma CreditAccounts(es: seq<Event>, id: string, weight: Option<int>)
    ensures Sum(AfterCredit(es, id, weight)) == Sum(es) - Refunded(es, id, weight)
    ensures NonNegative(es) ==> NonNegative(AfterCredit(es, id, weight))
  {
    match LastMatch(es, id)
    case None =>
    case Some(i) =>
      var refund := Refund(es[i], weight);
      if refund == es[i].weight {
        SumRemove(es, i);
        var r := es[..i] + es[i + 1..];
        if NonNegative(es) {
          forall k | 0 <= k < |r| ensures r[k].weight >= 0 {
            if k < i { assert r[k] == es[k]; } else { assert r[k] == es[k + 1]; }
          }
        }
      } else {
        SumUpdate(es, i, es[i].weight - refund);
      }
  }

  /** Every event under another id keeps its place, time and weight. */
  lemma CreditKeepsOthers(es: seq<Event>, id: string, weight: Option<int>)
    ensures forall e :: e in es && EventId(e) != id ==> e in AfterCredit(es, id, weight)
  {
    match LastMatch(es, id)
    case None =>
    case Some(i) =>
      var r := AfterCredit(es, id, weight);
      forall e | e in es && EventId(e) != id ensures e in r {
        var k :| 0 <= k < |es| && es[k] == e;
        assert k != i;
        if Refund(es[i], weight) == es[i].weight {
          assert r == es[..i] + es[i + 1..];
          if k < i { assert r[k] == e; } else { assert r[k - 1] == e; }
        } else {
          assert r[k] == e;
        }
      }
  }

  /** A refund keeps the serial numbers ascending and below `next`. */
  lemma CreditAscending(es: seq<Event>, id: string, weight: Option<int>, next: nat)
    requires Ascending(es, next)
    ensures Ascending(AfterCredit(es, id, weight), next)
  {
    match LastMatch(es, id)
    case None =>
    case Some(i) =>
      var r := AfterCredit(es, id, weight);
      if Refund(es[i], weight) == es[i].weight {
        RemoveAscending(es, next, i);
      } else {
        AscendingAll(es, next);
        AllAscending(r, next);
      }
  }

  lemma RemoveAscending(es: seq<Event>, next: nat, i: nat)
    requires Ascending(es, next) && i < |es|
    ensures Ascending(es[..i] + es[i + 1..], next)
  {
    AscendingAll(es, next);
    var r := es[..i] + es[i + 1..];
    forall a | 0 <= a < |r| ensures r[a] == es[if a < i then a else a + 1] {
    }
    AllAscending(r, next);
  }

  /** A refund can only lower the total when the weight given is absent or not negative. */
  lemma RefundBounds(es: seq<Event>, id: string, weight: Option<int>)
    requires NonNegative(es)
    requires weight.None? || weight.value >= 0
    ensures Refunded(es, id, weight) >= 0
  {
  }

  /** What `credit_by_id` keeps: serial order, non-negative weights and a total that is their sum. */
  lemma CreditKeeps(es: seq<Event>, id: string, weight: Option<int>, next: nat)
    requires Ascending(es, next) && NonNegative(es)
    ensures Ascending(AfterCredit(es, id, weight), next) && NonNegative(AfterCredit(es, id, weight))
    ensures Sum(AfterCredit(es, id, weight)) == Sum(es) - Refunded(es, id, weight) >= 0
    ensures (weight.None? || weight.value >= 0) ==> Refunded(es, id, weight) >= 0
  {
    CreditAscending(es, id, weight, next);
    CreditAccounts(es, id, weight);
    SumNonNegative(AfterCredit(es, id, weight));
  }

  /** The refund taken from the event `found` points at, and the queue without it. */
  method CreditAt(es: seq<Event>, id: string, weight: Option<int>, found: Option<nat>)
    returns (after: seq<Event>, refund: int)
    requires found == LastMatch(es, id)
    ensures after == AfterCredit(es, id, weight) && refund == Refunded(es, id, weight)
  {
    after, refund := es, 0;
    if found.Some? {
      var idx := found.value;
      var e := es[idx];
      refund := Refund(e, weight);
      if refund == e.weight {
        after := es[..idx] + es[idx + 1..];
      } else {
        after := es[idx := e.(weight := e.weight - refund)];
      }
    }
  }

  /** Sliding-window bucket: `capacity` units per `window` seconds. */
  class TokenBucket {
    const capacity: int
    const window: real
    var events: seq<Event>
    var inWindow: int
    var nextId: nat

    /** The running total is the sum of the queued weights, and serial numbers are fresh. */
    ghost predicate Tracked()
      reads this
    {
      inWindow == Sum(events) && Ascending(events, nextId)
    }

    /** `Tracked` with every queued weight non-negative. */
    ghost predicate Valid()
      reads this
    {
      Tracked() && NonNegative(events)
    }

    /**
     * `Valid` with the window holding no more than `capacity` units: what the
     * bucket exists to guarantee, kept by every operation as long as the
     * capacity and every weight reserved or credited are not negative.
     */
    ghost predicate Within()
      reads this
    {
      Valid() && inWindow <= capacity
    }

    constructor(capacity: int, window: real)
      ensures this.capacity == capacity && this.window == window
      ensures events == [] && inWindow == 0 && nextId == 0
      ensures Valid()
      ensures capacity >= 0 ==> Within()
    {
      this.capacity := capacity;
      this.window := window;
      events := [];
      inWindow := 0;
      nextId := 0;
    }

    /** `current_load`: the units in the window. */
    function CurrentLoad(): (n: int)
      reads this
      ensures Tracked() ==> n == Sum(events)
    {
      inWindow
    }

    /** `_purge_old(now)`: drops exactly the leading aged events and their weights. */
    method Purge(now: real)
      requires Tracked()
      modifies this
      ensures events == Purged(old(events), now, window)
      ensures nextId == old(nextId) && Tracked()
      ensures old(NonNegative(events)) ==> NonNegative(events) && inWindow <= old(inWindow)
      ensures old(Within()) ==> Within()
    {
      ghost var k := 0;
      while |events| > 0 && now - events[0].ts >= window
        invariant 0 <= k <= |old(events)| && events == old(events)[k..]
        invariant forall i :: 0 <= i < k ==> Aged(old(events)[i], now, window)
        invariant nextId == old(nextId) && Tracked()
        invariant old(NonNegative(events)) ==> NonNegative(events) && inWindow <= old(inWindow)
        decreases |events|
      {
        var weight := events[0].weight;
        assert old(events)[k] == events[0];
        AscendingTail(events, nextId);
        events := events[1..];
        inWindow := inWindow - weight;
        k := k + 1;
        assert events == old(events)[k..];
      }
      PurgeCountUnique(old(events), now, window, k);
    }

    /**
     * One pass of `_reserve`: after the purge, a weight that fits is
     * recorded under the next id; otherwise the bucket is unchanged and the
     * caller sleeps until the oldest event ages out, plus one second, which
     * fails on an empty queue.
     */
    method TryReserve(now: real, weight: int) returns (r: Attempt)
      requires Tracked()
      modifies this
      ensures var kept := Purged(old(events), now, window);
              if Sum(kept) + weight <= capacity then
                r == Granted(ToDecimal(old(nextId))) &&
                events == kept + [Event(now, weight, old(nextId))] && nextId == old(nextId) + 1
              else
                events == kept && nextId == old(nextId) &&
                r == if |kept| == 0 then IndexError else Sleep(window - (now - kept[0].ts) + 1.0)
      ensures Tracked()
      ensures r.Granted? ==> inWindow <= capacity
      ensures old(NonNegative(events)) && weight >= 0 ==> Valid()
      ensures old(NonNegative(events)) && weight > capacity ==> !r.Granted?
      ensures old(Within()) && weight >= 0 ==> Within()
    {
      ghost var before := events;
      Purge(now);
      if old(NonNegative(events)) {
        SumNonNegative(events);
      }
      if inWindow + weight <= capacity {
        var id := ToDecimal(nextId);
        SumAppend(events, [Event(now, weight, nextId)]);
        AscendingPush(events, nextId, Event(now, weight, nextId));
        events := events + [Event(now, weight, nextId)];
        nextId := nextId + 1;
        inWindow := inWindow + weight;
        return Granted(id);
      }
      if |events| == 0 {
        return IndexError;
      }
      return Sleep(window - (now - events[0].ts) + 1.0);
    }

    /** The scan from the newest event back to the oldest, stopping at the first with `id`. */
    method FindNewest(id: string) returns (found: Option<nat>)
      ensures found == LastMatch(events, id)
    {
      var idx := |events| - 1;
      while idx >= 0 && EventId(events[idx]) != id
        invariant -1 <= idx < |events|
        invariant forall j :: idx < j < |events| ==> EventId(events[j]) != id
        decreases idx
      {
        idx := idx - 1;
      }
      if idx >= 0 {
        LastMatchAt(events, id, idx);
        return Some(idx);
      }
      return None;
    }

    /**
     * `credit_by_id`: after the purge, the event with that id gives back its
     * refund (the whole event when no weight is given, else at most the
     * weight); an unknown or expired id changes nothing more; the total is
     * then clamped at 0.
     */
    method CreditById(now: real, id: string, weight: Option<int>)
      requires Valid()
      modifies this
      ensures var kept := Purged(old(events), now, window);
              events == AfterCredit(kept, id, weight) &&
              inWindow == Sum(kept) - Refunded(kept, id, weight)
      ensures nextId == old(nextId) && Valid()
      ensures (weight.None? || weight.value >= 0) ==> inWindow <= old(inWindow)
      ensures old(Within()) && (weight.None? || weight.value >= 0) ==> Within()
    {
      Purge(now);
      CreditKeeps(events, id, weight, nextId);
      var found := FindNewest(id);
      var after, refund := CreditAt(events, id, weight, found);
      var total := inWindow - refund;
      events, inWindow := after, if total < 0 then 0 else total;
    }
  }
}
