// The report generator's rate limit (src/gen_ratelimit.py): one request
// bucket and one token bucket of the retrieval assistant's kind, a
// reservation of the prompt's tokens plus a 2.5% buffer plus the output
// budget, at most two attempts at the model call, and a refund of the unused
// tokens to the call's own event in a `finally` block. Token counting is an
// input; each attempt's outcome is a parameter; the clock is passed in.
module GenRateLimit {
  import opened Wrappers
  import opened Decimal
  import opened IrTokenBucket
  import RateLimits

  const Rpm: int := 50
  const Tpm: int := 50000
  const MaxOut: nat := 5000
  /** Both buckets are built with the bucket's default window. */
  const Window: real := 60.0

  /** `toks + PROMPT_BUFFER(toks) + MAX_OUT`. */
  function GenReservation(toks: nat): (r: nat)
    ensures toks + MaxOut <= r
    ensures 40 * (r - MaxOut) <= 41 * toks < 40 * (r - MaxOut) + 40
  {
    toks + RateLimits.PromptBuffer(toks) + MaxOut
  }

  lemma GenReservationMonotone(p: nat, q: nat)
    requires p <= q
    ensures GenReservation(p) <= GenReservation(q)
  {
    assert RateLimits.PromptBuffer(p) <= RateLimits.PromptBuffer(q);
  }

  /** The longest prompt the 50 000-token capacity admits. */
  const MaxGenPrompt: nat := 43903

  /** The cap check admits exactly the prompts up to `MaxGenPrompt` tokens. */
  lemma GenCapAdmits(toks: nat)
    ensures GenReservation(toks) <= Tpm <==> toks <= MaxGenPrompt
  {
    assert GenReservation(MaxGenPrompt) == Tpm;
    assert GenReservation(MaxGenPrompt + 1) == Tpm + 1;
    if toks <= MaxGenPrompt {
      GenReservationMonotone(toks, MaxGenPrompt);
    } else {
      GenReservationMonotone(MaxGenPrompt + 1, toks);
    }
  }

  /** One attempt at the model call: a response carrying its token usage, or an exception. */
  datatype Call = Completed(totalTokens: int) | Raised(error: string)

  /** The ways `gated_call_gen` raises. */
  datatype GenError =
    | TooLarge(toks: nat)  // ValueError before any bucket is touched
    | BucketIndexError     // the oldest event of an empty queue was read
    | UnboundLocal         // `finally` read `response` after both attempts raised

  /** How a call ends: answered, waiting for a bucket (the source sleeps this long and retries), or raised. */
  datatype GenOutcome = Returned(usage: int) | Waiting(seconds: real) | Failed(error: GenError)

  /** The response the retry ends with: the first attempt's, else the second's, else none. */
  function Response(first: Call, second: Call): (r: Option<int>)
    ensures r.None? <==> first.Raised? && second.Raised?
    ensures first.Completed? ==> r == Some(first.totalTokens)
    ensures first.Raised? && second.Completed? ==> r == Some(second.totalTokens)
  {
    if first.Completed? then Some(first.totalTokens)
    else if second.Completed? then Some(second.totalTokens)
    else None
  }

  /** A blocked acquisition: the index error of an empty queue propagates, a full bucket means waiting. */
  function Blocked(at: Attempt): (o: GenOutcome)
    requires !at.Granted?
    ensures o.Waiting? || o == Failed(BucketIndexError)
  {
    if at.IndexError? then Failed(BucketIndexError) else Waiting(at.seconds)
  }

  /** The token queue after the refund of `reserved - used` to the event `id`, when positive. */
  function RefundedQueue(es: seq<Event>, id: string, used: int, reserved: int, now: real): seq<Event>
  {
    if reserved > used then AfterCredit(Purged(es, now, Window), id, Some(reserved - used)) else es
  }

  /**
   * A call answered before its reservation ages out ends with its own event
   * holding exactly the tokens it used (or gone, when it used none), every
   * earlier event left as the purge leaves it.
   */
  lemma RefundLeavesUsage(es: seq<Event>, now: real, toks: nat, num: nat, used: nat, doneAt: real)
    requires used < toks && doneAt - now < Window
    ensures RefundedQueue(es + [Event(now, toks, num)], ToDecimal(num), used, toks, doneAt) ==
            Purged(es, doneAt, Window) + if used == 0 then [] else [Event(now, used, num)]
  {
    var e := Event(now, toks, num);
    var kept := Purged(es, doneAt, Window);
    PurgedKeepsFresh(es, e, doneAt, Window);
    CreditNewest(kept, e, Some(toks - used));
    assert Refund(e, Some(toks - used)) == toks - used;
  }

  /** The two module-level buckets. */
  class GenLimiters {
    const reqBucket: TokenBucket
    const tokBucket: TokenBucket

    /** Both buckets keep their invariant; their capacities differ, so they are two buckets. */
    ghost predicate Valid()
      reads this, reqBucket, tokBucket
    {
      reqBucket.Valid() && tokBucket.Valid() &&
      reqBucket.capacity == Rpm && tokBucket.capacity == Tpm &&
      reqBucket.window == Window && tokBucket.window == Window
    }

    constructor()
      ensures Valid() && reqBucket.events == [] && tokBucket.events == []
    {
      reqBucket := new TokenBucket(Rpm, Window);
      tokBucket := new TokenBucket(Tpm, Window);
    }

    /** `refund_tokens`: the surplus goes back to the call's own event, and only when it is positive. */
    method RefundTokens(tokId: string, used: int, reserved: int, now: real)
      requires Valid()
      modifies tokBucket
      ensures Valid()
      ensures tokBucket.events == RefundedQueue(old(tokBucket.events), tokId, used, reserved, now)
    {
      assert reqBucket != tokBucket by { assert reqBucket.capacity != tokBucket.capacity; }
      if reserved > used {
        var surplus := reserved - used;
        tokBucket.CreditById(now, tokId, Some(surplus));
      }
    }

    /** The `async with`: one request, then `toks` tokens while the request is held. */
    method AcquireGen(toks: nat, now: real) returns (req: Attempt, tok: Attempt)
      requires Valid() && toks <= Tpm
      modifies reqBucket, tokBucket
      ensures Valid()
      ensures var kept := Purged(old(reqBucket.events), now, Window);
              if Sum(kept) + 1 <= Rpm then reqBucket.events == kept + [Event(now, 1, old(reqBucket.nextId))]
              else reqBucket.events == kept && tok == req && tokBucket.events == old(tokBucket.events)
      ensures req.Granted? ==>
                var kept := Purged(old(tokBucket.events), now, Window);
                if Sum(kept) + toks <= Tpm then
                  tok == Granted(ToDecimal(old(tokBucket.nextId))) &&
                  tokBucket.events == kept + [Event(now, toks, old(tokBucket.nextId))]
                else tokBucket.events == kept && !tok.Granted?
      ensures req.Granted? <==> Sum(Purged(old(reqBucket.events), now, Window)) + 1 <= Rpm
      ensures req.Granted? ==> (tok.Granted? <==> Sum(Purged(old(tokBucket.events), now, Window)) + toks <= Tpm)
      ensures !req.Granted? ==> !tok.Granted?
    {
      req := reqBucket.TryReserve(now, 1);
      if !req.Granted? {
        return req, req;
      }
      tok := tokBucket.TryReserve(now, toks);
    }

    /**
     * `gated_call_gen`: the cap check, the two reservations, up to two
     * attempts at the call, and the refund in `finally`, which itself
     * raises when both attempts raised and `response` was never bound.
     */
    method GatedCallGen(promptTokens: nat, now: real, first: Call, second: Call, doneAt: real) returns (o: GenOutcome)
      requires Valid()
      modifies reqBucket, tokBucket
      ensures Valid()
      ensures o == Failed(TooLarge(GenReservation(promptTokens))) <==> GenReservation(promptTokens) > Tpm
      ensures GenReservation(promptTokens) > Tpm ==> unchanged(reqBucket, tokBucket)
      ensures o.Returned? ==> Response(first, second) == Some(o.usage)
      ensures o.Returned? || o == Failed(UnboundLocal) ==>
                var toks := GenReservation(promptTokens);
                var kept := Purged(old(tokBucket.events), now, Window) + [Event(now, toks, old(tokBucket.nextId))];
                reqBucket.events == Purged(old(reqBucket.events), now, Window) + [Event(now, 1, old(reqBucket.nextId))] &&
                tokBucket.events ==
                  if o.Returned? then RefundedQueue(kept, ToDecimal(old(tokBucket.nextId)), o.usage, toks, doneAt) else kept
      ensures o == Failed(UnboundLocal) <==>
                GenReservation(promptTokens) <= Tpm &&
                Sum(Purged(old(reqBucket.events), now, Window)) + 1 <= Rpm &&
                Sum(Purged(old(tokBucket.events), now, Window)) + GenReservation(promptTokens) <= Tpm &&
                Response(first, second).None?
      ensures o.Waiting? || o == Failed(BucketIndexError) ==>
                Sum(Purged(old(reqBucket.events), now, Window)) + 1 > Rpm ||
                Sum(Purged(old(tokBucket.events), now, Window)) + GenReservation(promptTokens) > Tpm
    {
      var toks := GenReservation(promptTokens);
      if toks > Tpm {
        return Failed(TooLarge(toks));
      }
      var req, tokId := AcquireGen(toks, now);
      if !tokId.Granted? {
        return Blocked(tokId);
      }
      var response := Response(first, second);
      if response.None? {
        return Failed(UnboundLocal);
      }
      RefundTokens(tokId.id, response.value, toks, doneAt);
      return Returned(response.value);
    }
  }
}
