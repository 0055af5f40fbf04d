// The question-answering assistant's rate limits (src/QA_Assistant/Rate_limits.py):
// one global request bucket, one global token bucket and a token bucket per
// assistant created on first use, all of the older kind whose `credit` only
// lowers the running total. A call reserves one request, then its tokens
// from the personal bucket, then from the global one, each while the earlier
// ones are held; nothing is released when the call ends; a refund credits
// the surplus to the personal and the global bucket. Token counts are
// inputs, the clock is passed in, and one pass of each bucket's waiting loop
// is modelled.
module QaRateLimits {
  import opened Wrappers
  import opened QaTokenBucket

  const Window: real := 60.0
  const ReqCap: int := 50
  const GlobalTokCap: int := 50000
  const PersonalTokCap: int := 10000
  const DefaultMaxCompletion: nat := 3500
  const PromptBuffer: nat := 250

  /** `gated_openai_stream`'s reservation: context, system prompt and tools, the buffer, and the output budget. */
  function StreamReservation(contextTokens: nat, systemToks: nat, maxTokens: nat): (r: nat)
    ensures r == contextTokens + systemToks + maxTokens + 250
  {
    contextTokens + systemToks + PromptBuffer + maxTokens
  }

  /** The reservation a stream yields: its own, plus the earlier reservation of the run when one is passed. */
  function Yielded(reserve: nat, oldReserve: Option<int>): (r: int)
    ensures oldReserve.None? ==> r == reserve
    ensures oldReserve.Some? ==> r - reserve == oldReserve.value
  {
    if oldReserve.Some? then reserve + oldReserve.value else reserve
  }

  /** The ways the gated calls raise. */
  datatype QaError =
    | CapExceeded(total: int) // ValueError before any bucket is drawn on
    | BucketIndexError        // the oldest event of an empty queue was read

  /** How a gated call ends: sent, streaming with the reservation it yields, waiting for a bucket, or raised. */
  datatype QaOutcome = Sent | Streaming(reserve: int) | Waiting(seconds: real) | Failed(error: QaError)

  /**
   * The nested acquisitions on the buckets' states: one request, then
   * `total` from the personal bucket, then from the global one, each only
   * once the one before it is held. The attempt is that of the first bucket
   * that did not grant, else `Reserved`.
   */
  function Acquired(req: Bucket, own: Bucket, glob: Bucket, now: real, total: int): (Bucket, Bucket, Bucket, Attempt)
  {
    var (r1, a1) := Reserve(req, now, 1);
    if a1 != Reserved then (r1, own, glob, a1)
    else
      var (r2, a2) := Reserve(own, now, total);
      if a2 != Reserved then (r1, r2, glob, a2)
      else
        var (r3, a3) := Reserve(glob, now, total);
        (r1, r2, r3, a3)
  }

  /** What the acquisitions make of the call: `done` once every bucket granted. */
  function Outcome(a: Attempt, done: QaOutcome): (o: QaOutcome)
    ensures a == Reserved ==> o == done
    ensures a == IndexError ==> o == Failed(BucketIndexError)
    ensures a.Sleep? ==> o == Waiting(a.seconds)
  {
    match a
    case Reserved => done
    case IndexError => Failed(BucketIndexError)
    case Sleep(s) => Waiting(s)
  }

  /**
   * The order of the nested acquisitions: a later bucket is only drawn on
   * once every earlier one granted, and a call that waits for its personal
   * or global tokens keeps the request slot (and the personal tokens) it
   * already took. The call goes through exactly when all three fit.
   */
  lemma AcquireOrder(req: Bucket, own: Bucket, glob: Bucket, now: real, total: int)
    ensures var (r1, r2, r3, a) := Acquired(req, own, glob, now, total);
            r1 == Reserve(req, now, 1).0 &&
            (Reserve(req, now, 1).1 != Reserved ==> r2 == own && r3 == glob && a == Reserve(req, now, 1).1) &&
            (Reserve(req, now, 1).1 == Reserved ==>
               r1.events == Purged(req, now).events + [Event(now, 1)] &&
               r2 == Reserve(own, now, total).0 &&
               (Reserve(own, now, total).1 != Reserved ==> r3 == glob && a == Reserve(own, now, total).1)) &&
            (a == Reserved <==>
               Purged(req, now).inWindow + 1 <= req.capacity &&
               Purged(own, now).inWindow + total <= own.capacity &&
               Purged(glob, now).inWindow + total <= glob.capacity)
  {
    ReserveAccounts(req, now, 1);
    ReserveAccounts(own, now, total);
    ReserveAccounts(glob, now, total);
  }

  /** A refund of `diff`: nothing when it is not positive, else both buckets' totals are credited. */
  lemma RefundCreditsBoth(own: Bucket, glob: Bucket, diff: int)
    requires diff > 0
    ensures Credited(own, diff).events == own.events && Credited(glob, diff).events == glob.events
    ensures own.inWindow >= diff ==> Credited(own, diff).inWindow == own.inWindow - diff
    ensures glob.inWindow >= diff ==> Credited(glob, diff).inWindow == glob.inWindow - diff
    ensures Credited(own, diff).inWindow >= 0 && Credited(glob, diff).inWindow >= 0
  {
    CreditKeepsQueue(own, diff);
    CreditKeepsQueue(glob, diff);
  }

  /** The module's buckets: the two global ones and the per-assistant ones filled on first use. */
  class QaLimiters {
    const reqBucket: TokenBucket
    const globalTok: TokenBucket
    var personal: map<string, TokenBucket>

    /** The configured capacities, all different, so no per-assistant bucket is a global one. */
    ghost predicate Valid()
      reads this
    {
      reqBucket.capacity == ReqCap && reqBucket.window == Window &&
      globalTok.capacity == GlobalTokCap && globalTok.window == Window &&
      forall b | b in personal.Values :: b.capacity == PersonalTokCap && b.window == Window
    }

    /** The assistant's bucket state; a bucket not yet created is an empty one. */
    ghost function PersonalState(assistant: string): Bucket
      reads this, personal.Values
    {
      if assistant in personal then personal[assistant].State() else Bucket(PersonalTokCap, Window, [], 0)
    }

    constructor()
      ensures Valid() && personal == map[]
      ensures reqBucket.State() == Bucket(ReqCap, Window, [], 0)
      ensures globalTok.State() == Bucket(GlobalTokCap, Window, [], 0)
    {
      reqBucket := new TokenBucket(ReqCap, Window);
      globalTok := new TokenBucket(GlobalTokCap, Window);
      personal := map[];
    }

    /** `_get_token_buckets(assistant_id)[0]`: the assistant's bucket, created empty on first use. */
    method PersonalBucket(assistant: string) returns (b: TokenBucket)
      requires Valid()
      modifies this
      ensures Valid() && personal == old(personal)[assistant := b]
      ensures assistant in old(personal) ==> b == old(personal)[assistant] && personal == old(personal)
      ensures assistant !in old(personal) ==> fresh(b)
      ensures b.State() == old(PersonalState(assistant))
      ensures b.capacity == PersonalTokCap && b.window == Window
    {
      if assistant in personal {
        b := personal[assistant];
        return;
      }
      b := new TokenBucket(PersonalTokCap, Window);
      personal := personal[assistant := b];
    }

    /** The three nested `acquire`s of both gated calls. */
    method AcquireAll(mine: TokenBucket, total: int, now: real) returns (a: Attempt)
      requires Valid() && mine.capacity == PersonalTokCap
      modifies reqBucket, mine, globalTok
      ensures (reqBucket.State(), mine.State(), globalTok.State(), a) ==
              Acquired(old(reqBucket.State()), old(mine.State()), old(globalTok.State()), now, total)
    {
      a := reqBucket.TryReserve(now, 1);
      if a != Reserved {
        return;
      }
      a := mine.TryReserve(now, total);
      if a != Reserved {
        return;
      }
      a := globalTok.TryReserve(now, total);
    }

    /**
     * `gated_openai_call`: fetch the assistant's bucket, reject a total of
     * prompt and completion tokens above the personal cap before any bucket
     * is drawn on, then acquire one request, the personal tokens and the
     * global tokens, and send.
     */
    method GatedOpenaiCall(assistant: string, promptTokens: nat, maxTokens: nat, now: real) returns (o: QaOutcome)
      requires Valid()
      modifies this, reqBucket, globalTok, if assistant in personal then {personal[assistant]} else {}
      ensures Valid() && assistant in personal && personal == old(personal)[assistant := personal[assistant]]
      ensures assistant in old(personal) ==> personal == old(personal)
      ensures o == Failed(CapExceeded(promptTokens + maxTokens)) <==> promptTokens + maxTokens > PersonalTokCap
      ensures promptTokens + maxTokens > PersonalTokCap ==>
                unchanged(reqBucket, globalTok) && PersonalState(assistant) == old(PersonalState(assistant))
      ensures promptTokens + maxTokens <= PersonalTokCap ==>
                var (r1, r2, r3, a) := Acquired(old(reqBucket.State()), old(PersonalState(assistant)),
                                                old(globalTok.State()), now, promptTokens + maxTokens);
                reqBucket.State() == r1 && PersonalState(assistant) == r2 && globalTok.State() == r3 &&
                o == Outcome(a, Sent)
    {
      var mine := PersonalBucket(assistant);
      var total := promptTokens + maxTokens;
      if total > PersonalTokCap {
        return Failed(CapExceeded(total));
      }
      var a := AcquireAll(mine, total, now);
      o := Outcome(a, Sent);
    }

    /**
     * `gated_openai_stream`: the same with the stream's reservation; the
     * stream is yielded with its reservation plus `old_reserve` when given.
     */
    method GatedOpenaiStream(assistant: string, contextTokens: nat, systemToks: nat, maxTokens: nat,
                             oldReserve: Option<int>, now: real) returns (o: QaOutcome)
      requires Valid()
      modifies this, reqBucket, globalTok, if assistant in personal then {personal[assistant]} else {}
      ensures Valid() && assistant in personal && personal == old(personal)[assistant := personal[assistant]]
      ensures assistant in old(personal) ==> personal == old(personal)
      ensures var reserve := StreamReservation(contextTokens, systemToks, maxTokens);
              o == Failed(CapExceeded(reserve)) <==> reserve > PersonalTokCap
      ensures var reserve := StreamReservation(contextTokens, systemToks, maxTokens);
              reserve > PersonalTokCap ==>
                unchanged(reqBucket, globalTok) && PersonalState(assistant) == old(PersonalState(assistant))
      ensures var reserve := StreamReservation(contextTokens, systemToks, maxTokens);
              reserve <= PersonalTokCap ==>
                var (r1, r2, r3, a) := Acquired(old(reqBucket.State()), old(PersonalState(assistant)),
                                                old(globalTok.State()), now, reserve);
                reqBucket.State() == r1 && PersonalState(assistant) == r2 && globalTok.State() == r3 &&
                o == Outcome(a, Streaming(Yielded(reserve, oldReserve)))
    {
      var mine := PersonalBucket(assistant);
      var reserve := StreamReservation(contextTokens, systemToks, maxTokens);
      if reserve > PersonalTokCap {
        return Failed(CapExceeded(reserve));
      }
      var a := AcquireAll(mine, reserve, now);
      o := Outcome(a, Streaming(Yielded(reserve, oldReserve)));
    }

    /**
     * `refund_tokens`: nothing (not even the bucket lookup) when
     * reserved - used is not positive, else the difference is credited to
     * the personal and then the global bucket.
     */
    method RefundTokens(assistant: string, usedTokens: int, reserved: int)
      requires Valid()
      modifies this, globalTok, if assistant in personal then {personal[assistant]} else {}
      ensures Valid()
      ensures reserved - usedTokens <= 0 ==> unchanged(this, globalTok) && PersonalState(assistant) == old(PersonalState(assistant))
      ensures reserved - usedTokens > 0 ==>
                assistant in personal && personal == old(personal)[assistant := personal[assistant]] &&
                PersonalState(assistant) == Credited(old(PersonalState(assistant)), reserved - usedTokens) &&
                globalTok.State() == Credited(old(globalTok.State()), reserved - usedTokens)
      ensures assistant in old(personal) ==> personal == old(personal)
    {
      var diff := reserved - usedTokens;
      if diff <= 0 {
        return;
      }
      var mine := PersonalBucket(assistant);
      mine.Credit(diff);
      globalTok.Credit(diff);
    }
  }
}
