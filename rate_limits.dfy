// The retrieval assistant's rate limits: every model call reserves its
// estimated tokens in sliding-window buckets before it is sent, search calls
// in the planner's own buckets and every other stage in the shared global
// buckets plus a bucket per assistant, and the surplus is refunded to the
// exact events reserved once the real usage is known. Token counting is an
// input (`promptTokens`); the clock is passed in; one pass of each bucket's
// waiting loop is modelled.
module RateLimits {
  import opened Wrappers
  import opened Decimal
  import opened IrTokenBucket

  const Window: real := 62.0
  const PlanReqCap: int := 50
  const PlanTokCap: int := 50000
  const GlobalReqCap: int := 200
  const GlobalTokCap: int := 200000
  const PersonalTokCap: int := 100000

  /** The stages of the assistant's loop, each with its output budget and its reservation cap. */
  datatype LoopStage = SearchCall | SelectCall | UpdateCall | FinalCall

  function MaxOutputTokens(stage: LoopStage): nat
  {
    match stage
    case SearchCall => 3000
    case SelectCall => 3000
    case UpdateCall => 6000
    case FinalCall => 1500
  }

  function StageCap(stage: LoopStage): nat
  {
    match stage
    case SearchCall => 75000
    case SelectCall => 100000
    case UpdateCall => 150000
    case FinalCall => 100000
  }

  /** `PROMPT_BUFFER`: 2.5% of the estimate, truncated, i.e. the whole number of 40s in it. */
  function PromptBuffer(x: nat): (b: nat)
    ensures 40 * b <= x < 40 * b + 40
  {
    x * 25 / 1000
  }

  /** The tokens a call reserves: prompt, the stage's output budget, and 2.5% of both on top. */
  function Reservation(promptTokens: nat, stage: LoopStage): (r: nat)
    ensures promptTokens + MaxOutputTokens(stage) <= r
    ensures 40 * r <= 41 * (promptTokens + MaxOutputTokens(stage)) < 40 * r + 40
  {
    var base := promptTokens + MaxOutputTokens(stage);
    base + PromptBuffer(base)
  }

  /** The longest prompt each stage's cap admits. */
  function MaxPrompt(stage: LoopStage): nat
  {
    match stage
    case SearchCall => 70171
    case SelectCall => 94561
    case UpdateCall => 140342
    case FinalCall => 96061
  }

  lemma ReservationMonotone(p: nat, q: nat, stage: LoopStage)
    requires p <= q
    ensures Reservation(p, stage) <= Reservation(q, stage)
  {
  }

  /** The cap check admits exactly the prompts up to `MaxPrompt`. */
  lemma CapAdmits(promptTokens: nat, stage: LoopStage)
    ensures Reservation(promptTokens, stage) <= StageCap(stage) <==> promptTokens <= MaxPrompt(stage)
  {
    var m := MaxPrompt(stage);
    assert Reservation(m, stage) <= StageCap(stage) < Reservation(m + 1, stage);
    if promptTokens <= m {
      ReservationMonotone(promptTokens, m, stage);
    } else {
      ReservationMonotone(m + 1, promptTokens, stage);
    }
  }

  /**
   * A search reservation the stage cap admits can exceed the plan token
   * bucket's whole capacity, and an update reservation the personal
   * bucket's: such a call passes the cap check and then can never fit.
   */
  lemma CapsAboveBuckets()
    ensures Reservation(MaxPrompt(SearchCall), SearchCall) == StageCap(SearchCall) > PlanTokCap
    ensures Reservation(MaxPrompt(UpdateCall), UpdateCall) == StageCap(UpdateCall) > PersonalTokCap
  {
  }

  /** What the model client gives back: its usage, nothing, or an exception. */
  datatype ClientReply = Usage(totalTokens: int) | NoReply | Raises(error: string)

  /** The ways `gated_response` raises. */
  datatype GateError =
    | CapExceeded(reserve: nat)    // ValueError before any reservation
    | NoResponse                   // ValueError on a None result
    | BucketIndexError             // the oldest event of an empty queue was read
    | ClientError(message: string) // the client's own exception, reservations kept

  /** How a call ends: answered, still waiting for a bucket (the source sleeps this long and retries), or raised. */
  datatype GateOutcome = Responded(usage: int) | Waiting(seconds: real) | Failed(error: GateError)

  /** A blocked acquisition: the index error of an empty queue propagates, a full bucket means waiting. */
  function Stopped(at: Attempt): (r: GateOutcome)
    requires !at.Granted?
    ensures r.Waiting? || r == Failed(BucketIndexError)
  {
    if at.IndexError? then Failed(BucketIndexError) else Waiting(at.seconds)
  }

  /** What the client's reply makes of the call once the reservations are held. */
  function Answered(reply: ClientReply): (r: GateOutcome)
    ensures r.Responded? <==> reply.Usage?
    ensures r.Responded? ==> reply == Usage(r.usage)
    ensures r == Failed(NoResponse) <==> reply.NoReply?
    ensures !r.Waiting? && (r.Failed? ==> !r.error.CapExceeded? && !r.error.BucketIndexError?)
  {
    match reply
    case Usage(used) => Responded(used)
    case NoReply => Failed(NoResponse)
    case Raises(e) => Failed(ClientError(e))
  }

  /** How the nested acquisitions end: holding every reservation with the ids the body records, or stopped at one bucket. */
  datatype Held = Holding(ids: map<string, string>) | Blocked(at: Attempt)

  /**
   * The queue after `credit_by_id(ids[key], surplus)`: purged and credited
   * when the key is present; untouched when `ids[key]` raises KeyError first.
   */
  function Credited(es: seq<Event>, ids: map<string, string>, key: string, surplus: int, now: real): seq<Event>
  {
    if key in ids then AfterCredit(Purged(es, now, Window), ids[key], Some(surplus)) else es
  }

  /** The ordinary refund reads "personal" first and "global" second; the first missing one is the KeyError. */
  function OwnOutcome(ids: map<string, string>): Result<(), string>
  {
    if "personal" !in ids then Err("personal") else if "global" !in ids then Err("global") else Ok(())
  }

  /** A bucket's queue once `_reserve` grants `weight` at `now`: purged, then the new event under serial `num`. */
  function Drawn(es: seq<Event>, weight: int, now: real, num: nat): seq<Event>
  {
    Purged(es, now, Window) + [Event(now, weight, num)]
  }

  /**
   * A drawn token bucket's queue after `refund_tokens`: as it was when the
   * call used its whole reservation or more, else with the surplus credited
   * to the event `ids[key]`.
   */
  function Settled(es: seq<Event>, ids: map<string, string>, key: string, used: int, reserve: int, doneAt: real): seq<Event>
  {
    if reserve - used <= 0 then es else Credited(es, ids, key, reserve - used, doneAt)
  }

  /** The call got as far as the client: every reservation is held and stays in its bucket. */
  predicate Called(r: GateOutcome)
  {
    r.Responded? || (r.Failed? && (r.error.NoResponse? || r.error.ClientError?))
  }

  /** Crediting `reserve - used` to the newest event leaves it holding `used` tokens, or drops it when `used` is 0. */
  lemma CreditNewestTo(kept: seq<Event>, reserve: nat, now: real, num: nat, used: nat)
    requires used < reserve
    ensures AfterCredit(kept + [Event(now, reserve, num)], ToDecimal(num), Some(reserve - used)) ==
            kept + if used == 0 then [] else [Event(now, used, num)]
  {
    var e := Event(now, reserve, num);
    CreditNewest(kept, e, Some(reserve - used));
    assert Refund(e, Some(reserve - used)) == reserve - used;
  }

  /**
   * A call answered before its reservation ages out leaves its own event
   * holding exactly the tokens it used (gone when it used none), behind
   * the earlier events the purge keeps.
   */
  lemma SettledLeavesUsage(es: seq<Event>, reserve: nat, now: real, num: nat, ids: map<string, string>, key: string,
                           used: nat, doneAt: real)
    requires key in ids && ids[key] == ToDecimal(num)
    requires used < reserve && doneAt - now < Window
    ensures Settled(es + [Event(now, reserve, num)], ids, key, used, reserve, doneAt) ==
            Purged(es, doneAt, Window) + if used == 0 then [] else [Event(now, used, num)]
  {
    PurgedKeepsFresh(es, Event(now, reserve, num), doneAt, Window);
    CreditNewestTo(Purged(es, doneAt, Window), reserve, now, num, used);
  }

  /** The module's buckets: four shared ones and a map of per-assistant ones filled on first use. */
  class Limiters {
    const planReq: TokenBucket
    const planTok: TokenBucket
    const globalTok: TokenBucket
    const globalReq: TokenBucket
    var personal: map<string, TokenBucket>

    /**
     * The shared buckets are valid with their configured capacities (all
     * different, so no two roles share a bucket), and every per-assistant
     * bucket has the personal capacity (so it is none of the shared ones).
     */
    ghost predicate Valid()
      reads this, planReq, planTok, globalTok, globalReq
    {
      planReq.Valid() && planTok.Valid() && globalTok.Valid() && globalReq.Valid() &&
      planReq.capacity == PlanReqCap && planTok.capacity == PlanTokCap &&
      globalTok.capacity == GlobalTokCap && globalReq.capacity == GlobalReqCap &&
      planReq.window == Window && planTok.window == Window &&
      globalTok.window == Window && globalReq.window == Window &&
      forall b | b in personal.Values :: b.capacity == PersonalTokCap && b.window == Window
    }

    /** Every per-assistant bucket keeps its own invariant. */
    ghost predicate PersonalValid()
      reads this, personal.Values
    {
      forall b | b in personal.Values :: b.Valid()
    }

    /** No two assistants share a bucket. */
    ghost predicate Unshared()
      reads this
    {
      forall a, c | a in personal && c in personal && a != c :: personal[a] != personal[c]
    }

    /** The assistant's queued reservations; none before its bucket exists. */
    ghost function EventsOf(assistant: string): seq<Event>
      reads this, personal.Values
    {
      if assistant in personal then personal[assistant].events else []
    }

    /** The serial number the assistant's next reservation gets; 0 before its bucket exists. */
    ghost function NextOf(assistant: string): nat
      reads this, personal.Values
    {
      if assistant in personal then personal[assistant].nextId else 0
    }

    /** A bucket with the personal capacity is none of the shared ones. */
    lemma NotShared(b: TokenBucket)
      requires Valid() && b.capacity == PersonalTokCap
      ensures b != planReq && b != planTok && b != globalTok && b != globalReq
    {
    }

    /** Changing only the valid bucket `b` keeps every per-assistant bucket valid. */
    twostate lemma KeepsPersonal(b: TokenBucket)
      requires old(PersonalValid()) && unchanged(this) && b.Valid()
      requires forall c | c in personal.Values && c != b :: unchanged(c)
      ensures PersonalValid()
    {
      forall c | c in personal.Values
        ensures c.Valid()
      {
        if c != b {
          assert old(c.Valid());
        }
      }
    }

    constructor()
      ensures Valid() && PersonalValid() && Unshared() && personal == map[]
      ensures planTok.events == [] && planReq.events == [] && globalTok.events == [] && globalReq.events == []
    {
      planReq := new TokenBucket(PlanReqCap, Window);
      planTok := new TokenBucket(PlanTokCap, Window);
      globalTok := new TokenBucket(GlobalTokCap, Window);
      globalReq := new TokenBucket(GlobalReqCap, Window);
      personal := map[];
    }

    /**
     * `assistant_tok_limiters[assistant_id]`: the assistant's existing
     * bucket, or a new empty one with the personal capacity, stored under
     * that id.
     */
    method PersonalBucket(assistant: string) returns (b: TokenBucket)
      requires Valid() && PersonalValid()
      modifies this
      ensures Valid() && PersonalValid() && b.Valid()
      ensures personal == old(personal)[assistant := b]
      ensures assistant in old(personal) ==> b == old(personal)[assistant] && personal == old(personal)
      ensures assistant !in old(personal) ==> fresh(b) && b.events == [] && b.nextId == 0
      ensures b.capacity == PersonalTokCap && b.window == Window
      ensures old(Unshared()) ==> Unshared()
    {
      if assistant in personal {
        b := personal[assistant];
        return;
      }
      b := new TokenBucket(PersonalTokCap, Window);
      personal := personal[assistant := b];
    }

    /**
     * The search branch's `async with`: `reserve` tokens from the plan token
     * bucket, then one request from the plan request bucket while the tokens
     * are held; the body records the token event's id under "plan".
     */
    method AcquireSearch(reserve: nat, now: real) returns (h: Held)
      requires Valid()
      modifies planTok, planReq
      ensures Valid()
      ensures var kept := Purged(old(planTok.events), now, Window);
              if Sum(kept) + reserve <= PlanTokCap then
                planTok.events == kept + [Event(now, reserve, old(planTok.nextId))]
              else
                planTok.events == kept && planReq.events == old(planReq.events) &&
                h == Blocked(if |kept| == 0 then IndexError else Sleep(Window - (now - kept[0].ts) + 1.0))
      ensures h.Holding? ==>
                h.ids == map["plan" := ToDecimal(old(planTok.nextId))] &&
                planReq.events == Purged(old(planReq.events), now, Window) + [Event(now, 1, old(planReq.nextId))]
      ensures h.Blocked? ==> !h.at.Granted?
      ensures reserve > PlanTokCap ==> h.Blocked?
    {
      var tok := planTok.TryReserve(now, reserve);
      if !tok.Granted? {
        return Blocked(tok);
      }
      var req := planReq.TryReserve(now, 1);
      if !req.Granted? {
        return Blocked(req);
      }
      return Holding(map["plan" := tok.id]);
    }

    /**
     * The inner two of an ordinary call's nested acquisitions: `reserve`
     * tokens from the assistant's own bucket, then one global request.
     */
    method AcquireOwn(mine: TokenBucket, reserve: nat, now: real) returns (h: Attempt, req: Attempt)
      requires Valid() && mine.Valid() && mine.capacity == PersonalTokCap && mine.window == Window
      modifies mine, globalReq
      ensures Valid() && mine.Valid()
      ensures h.Granted? ==>
                h.id == ToDecimal(old(mine.nextId)) &&
                mine.events == Purged(old(mine.events), now, Window) + [Event(now, reserve, old(mine.nextId))]
      ensures h.Granted? && req.Granted? ==>
                globalReq.events == Purged(old(globalReq.events), now, Window) + [Event(now, 1, old(globalReq.nextId))]
      ensures !h.Granted? ==> req == h
      ensures reserve > PersonalTokCap ==> !h.Granted?
    {
      NotShared(mine);
      h := mine.TryReserve(now, reserve);
      if !h.Granted? {
        return h, h;
      }
      req := globalReq.TryReserve(now, 1);
    }

    /**
     * Every other stage's `async with`: `reserve` tokens from the global
     * bucket, then from the assistant's own bucket, then one global request,
     * each while the earlier ones are held; the body records the two token
     * events' ids under "global" and "personal".
     */
    method AcquireOrdinary(mine: TokenBucket, reserve: nat, now: real) returns (h: Held)
      requires Valid() && mine.Valid() && mine.capacity == PersonalTokCap && mine.window == Window
      modifies globalTok, mine, globalReq
      ensures Valid() && mine.Valid()
      ensures var kept := Purged(old(globalTok.events), now, Window);
              if Sum(kept) + reserve <= GlobalTokCap then
                globalTok.events == kept + [Event(now, reserve, old(globalTok.nextId))]
              else
                globalTok.events == kept && mine.events == old(mine.events) && globalReq.events == old(globalReq.events) &&
                h == Blocked(if |kept| == 0 then IndexError else Sleep(Window - (now - kept[0].ts) + 1.0))
      ensures h.Holding? ==>
                h.ids == map["global" := ToDecimal(old(globalTok.nextId)), "personal" := ToDecimal(old(mine.nextId))] &&
                mine.events == Purged(old(mine.events), now, Window) + [Event(now, reserve, old(mine.nextId))] &&
                globalReq.events == Purged(old(globalReq.events), now, Window) + [Event(now, 1, old(globalReq.nextId))]
      ensures h.Blocked? ==> !h.at.Granted?
      ensures reserve > PersonalTokCap ==> h.Blocked?
    {
      NotShared(mine);
      ghost var own0, req0 := mine.events, globalReq.events;
      ghost var ownNext, reqNext := mine.nextId, globalReq.nextId;
      var global := globalTok.TryReserve(now, reserve);
      if !global.Granted? {
        return Blocked(global);
      }
      var own, req := AcquireOwn(mine, reserve, now);
      if !own.Granted? || !req.Granted? {
        return Blocked(req);
      }
      assert mine.events == Purged(own0, now, Window) + [Event(now, reserve, ownNext)];
      assert globalReq.events == Purged(req0, now, Window) + [Event(now, 1, reqNext)];
      return Holding(map["global" := global.id, "personal" := own.id]);
    }

    /**
     * `refund_tokens` for a search call (`is_plan_call`): nothing when
     * reserved - used is not positive, else the surplus goes back to the
     * plan event, or a KeyError when the plan id is missing.
     */
    method RefundSearch(used: int, reserved: int, ids: map<string, string>, now: real) returns (r: Result<(), string>)
      requires Valid()
      modifies planTok
      ensures Valid()
      ensures r == if reserved - used <= 0 || "plan" in ids then Ok(()) else Err("plan")
      ensures planTok.events ==
              if reserved - used <= 0 then old(planTok.events)
              else Credited(old(planTok.events), ids, "plan", reserved - used, now)
    {
      if reserved - used <= 0 {
        return Ok(());
      }
      if "plan" !in ids {
        return Err("plan");
      }
      planTok.CreditById(now, ids["plan"], Some(reserved - used));
      return Ok(());
    }

    /**
     * Every other branch of `refund_tokens`, with the assistant's bucket in
     * hand: the surplus goes back to the personal event and then to the
     * global event; a missing id is a KeyError raised after the credits
     * before it.
     */
    method RefundOwn(mine: TokenBucket, ids: map<string, string>, surplus: int, now: real) returns (r: Result<(), string>)
      requires Valid() && mine.Valid() && mine.capacity == PersonalTokCap && mine.window == Window
      modifies mine, globalTok
      ensures Valid() && mine.Valid()
      ensures r == OwnOutcome(ids)
      ensures mine.events == Credited(old(mine.events), ids, "personal", surplus, now)
      ensures globalTok.events ==
              if "personal" in ids then Credited(old(globalTok.events), ids, "global", surplus, now) else old(globalTok.events)
    {
      NotShared(mine);
      if "personal" !in ids {
        return Err("personal");
      }
      mine.CreditById(now, ids["personal"], Some(surplus));
      if "global" !in ids {
        return Err("global");
      }
      globalTok.CreditById(now, ids["global"], Some(surplus));
      return Ok(());
    }

    /**
     * The ordinary branch of `refund_tokens`: fetch the assistant's bucket
     * (creating it if need be) and credit the surplus to its personal event
     * and then to its global event.
     */
    method RefundAssistant(assistant: string, ids: map<string, string>, surplus: int, now: real)
      returns (r: Result<(), string>)
      requires Valid() && PersonalValid()
      modifies this, globalTok, if assistant in personal then {personal[assistant]} else {}
      ensures Valid() && PersonalValid()
      ensures assistant in personal && personal == old(personal)[assistant := personal[assistant]]
      ensures assistant in old(personal) ==> personal[assistant] == old(personal)[assistant] && personal == old(personal)
      ensures r == OwnOutcome(ids)
      ensures EventsOf(assistant) == Credited(old(EventsOf(assistant)), ids, "personal", surplus, now)
      ensures globalTok.events ==
              if "personal" in ids then Credited(old(globalTok.events), ids, "global", surplus, now) else old(globalTok.events)
    {
      ghost var before := EventsOf(assistant);
      var mine := PersonalBucket(assistant);
      assert mine == personal[assistant] && mine.events == before;
      label Fetched:
      r := RefundOwn(mine, ids, surplus, now);
      KeepsPersonal@Fetched(mine);
    }

    /**
     * The search branch of `gated_response` after the cap check: hold the
     * plan buckets, call the client, and refund the surplus of its usage.
     */
    method SearchBranch(reserve: nat, now: real, reply: ClientReply, doneAt: real) returns (r: GateOutcome)
      requires Valid()
      modifies planTok, planReq
      ensures Valid()
      ensures reserve > PlanTokCap ==> !r.Responded?
      ensures r.Responded? ==> reply == Usage(r.usage)
      ensures reply.NoReply? ==> r.Waiting? || r == Failed(NoResponse) || r == Failed(BucketIndexError)
      ensures !r.Failed? || !r.error.CapExceeded?
      ensures r == Failed(NoResponse) ==> reply.NoReply?
      ensures Called(r) ==>
                var drawn := Drawn(old(planTok.events), reserve, now, old(planTok.nextId));
                planReq.events == Drawn(old(planReq.events), 1, now, old(planReq.nextId)) &&
                planTok.events ==
                  if r.Responded? then Settled(drawn, map["plan" := ToDecimal(old(planTok.nextId))], "plan", r.usage, reserve, doneAt)
                  else drawn
    {
      ghost var ids := map["plan" := ToDecimal(planTok.nextId)];
      ghost var drawn := Drawn(planTok.events, reserve, now, planTok.nextId);
      var h := AcquireSearch(reserve, now);
      if h.Blocked? {
        return Stopped(h.at);
      }
      assert h.ids == ids && planTok.events == drawn;
      r := SettleSearch(h.ids, reserve, reply, doneAt);
    }

    /**
     * A search call once its reservations are held: the client's reply
     * decides the outcome, and an answer's surplus goes back to the plan
     * event recorded in `ids`.
     */
    method SettleSearch(ids: map<string, string>, reserve: nat, reply: ClientReply, doneAt: real) returns (r: GateOutcome)
      requires Valid() && "plan" in ids
      modifies planTok
      ensures Valid()
      ensures r == Answered(reply)
      ensures planTok.events ==
              if r.Responded? then Settled(old(planTok.events), ids, "plan", r.usage, reserve, doneAt) else old(planTok.events)
    {
      r := Answered(reply);
      if reply.Usage? {
        var refunded := RefundSearch(reply.totalTokens, reserve, ids, doneAt);
      }
    }

    /**
     * Every other stage's branch of `gated_response` after the cap check:
     * hold the global and the assistant's buckets, call the client, and
     * refund the surplus of its usage.
     */
    method OrdinaryBranch(assistant: string, reserve: nat, now: real, reply: ClientReply, doneAt: real) returns (r: GateOutcome)
      requires Valid() && PersonalValid() && assistant in personal
      modifies this, globalTok, globalReq, personal[assistant]
      ensures Valid() && PersonalValid() && personal == old(personal)
      ensures reserve > PersonalTokCap ==> !r.Responded?
      ensures r.Responded? ==> reply == Usage(r.usage)
      ensures reply.NoReply? ==> r.Waiting? || r == Failed(NoResponse) || r == Failed(BucketIndexError)
      ensures !r.Failed? || !r.error.CapExceeded?
      ensures r == Failed(NoResponse) ==> reply.NoReply?
      ensures Called(r) ==>
                var ids := map["global" := ToDecimal(old(globalTok.nextId)), "personal" := ToDecimal(old(personal[assistant].nextId))];
                var global := Drawn(old(globalTok.events), reserve, now, old(globalTok.nextId));
                var own := Drawn(old(personal[assistant].events), reserve, now, old(personal[assistant].nextId));
                globalReq.events == Drawn(old(globalReq.events), 1, now, old(globalReq.nextId)) &&
                globalTok.events == (if r.Responded? then Settled(global, ids, "global", r.usage, reserve, doneAt) else global) &&
                personal[assistant].events == if r.Responded? then Settled(own, ids, "personal", r.usage, reserve, doneAt) else own
    {
      var mine := personal[assistant];
      ghost var ids := map["global" := ToDecimal(globalTok.nextId), "personal" := ToDecimal(mine.nextId)];
      ghost var global := Drawn(globalTok.events, reserve, now, globalTok.nextId);
      ghost var own := Drawn(mine.events, reserve, now, mine.nextId);
      label Start:
      var h := AcquireOrdinary(mine, reserve, now);
      KeepsPersonal@Start(mine);
      if h.Blocked? {
        return Stopped(h.at);
      }
      assert h.ids == ids && globalTok.events == global && mine.events == own;
      r := SettleOrdinary(assistant, h.ids, reserve, reply, doneAt);
    }

    /**
     * An ordinary call once its reservations are held: the client's reply
     * decides the outcome, and an answer's surplus goes back to the
     * personal and the global event recorded in `ids`.
     */
    method SettleOrdinary(assistant: string, ids: map<string, string>, reserve: nat, reply: ClientReply, doneAt: real)
      returns (r: GateOutcome)
      requires Valid() && PersonalValid() && assistant in personal && "personal" in ids && "global" in ids
      modifies this, globalTok, personal[assistant]
      ensures Valid() && PersonalValid() && personal == old(personal)
      ensures r == Answered(reply) && globalReq.events == old(globalReq.events)
      ensures globalTok.events ==
              if r.Responded? then Settled(old(globalTok.events), ids, "global", r.usage, reserve, doneAt) else old(globalTok.events)
      ensures personal[assistant].events ==
              if r.Responded? then Settled(old(personal[assistant].events), ids, "personal", r.usage, reserve, doneAt)
              else old(personal[assistant].events)
    {
      NotShared(personal[assistant]);
      r := Answered(reply);
      if reply.Usage? && reserve - reply.totalTokens > 0 {
        var refunded := RefundAssistant(assistant, ids, reserve - reply.totalTokens, doneAt);
        assert EventsOf(assistant) == personal[assistant].events;
      }
    }

    /**
     * `gated_response`: fetch (creating if need be) the assistant's bucket,
     * reject a reservation above the stage's cap before any bucket is drawn
     * on, reserve in the stage's buckets, call the client, and refund the
     * surplus of its usage to the events just reserved.
     */
    method GatedResponse(assistant: string, promptTokens: nat, stage: LoopStage, now: real, reply: ClientReply, doneAt: real)
      returns (r: GateOutcome)
      requires Valid() && PersonalValid()
      modifies this, planTok, planReq, globalTok, globalReq,
               if assistant in personal then {personal[assistant]} else {}
      ensures Valid() && PersonalValid() && (old(Unshared()) ==> Unshared())
      ensures assistant in personal && personal == old(personal)[assistant := personal[assistant]]
      ensures assistant in old(personal) ==> personal[assistant] == old(personal)[assistant]
      ensures r == Failed(CapExceeded(Reservation(promptTokens, stage))) <==>
              Reservation(promptTokens, stage) > StageCap(stage)
      ensures Reservation(promptTokens, stage) > StageCap(stage) ==>
                unchanged(planTok, planReq, globalTok, globalReq) &&
                (assistant in old(personal) ==> unchanged(personal[assistant]))
      ensures stage == SearchCall ==>
                unchanged(globalTok, globalReq) && (assistant in old(personal) ==> unchanged(personal[assistant]))
      ensures stage != SearchCall ==> unchanged(planTok, planReq)
      ensures stage == SearchCall && Reservation(promptTokens, stage) > PlanTokCap ==> !r.Responded?
      ensures stage != SearchCall && Reservation(promptTokens, stage) > PersonalTokCap ==> !r.Responded?
      ensures r.Responded? ==> reply == Usage(r.usage)
      ensures reply.NoReply? && Reservation(promptTokens, stage) <= StageCap(stage) ==> r.Waiting? || r.Failed?
      ensures r.Failed? && r.error.NoResponse? ==> reply.NoReply?
      ensures stage == SearchCall && Called(r) ==>
                var reserve := Reservation(promptTokens, stage);
                var drawn := Drawn(old(planTok.events), reserve, now, old(planTok.nextId));
                planReq.events == Drawn(old(planReq.events), 1, now, old(planReq.nextId)) &&
                planTok.events ==
                  if r.Responded? then Settled(drawn, map["plan" := ToDecimal(old(planTok.nextId))], "plan", r.usage, reserve, doneAt)
                  else drawn
      ensures stage != SearchCall && Called(r) ==>
                var reserve := Reservation(promptTokens, stage);
                var ids := map["global" := ToDecimal(old(globalTok.nextId)), "personal" := ToDecimal(old(NextOf(assistant)))];
                var global := Drawn(old(globalTok.events), reserve, now, old(globalTok.nextId));
                var own := Drawn(old(EventsOf(assistant)), reserve, now, old(NextOf(assistant)));
                globalReq.events == Drawn(old(globalReq.events), 1, now, old(globalReq.nextId)) &&
                globalTok.events == (if r.Responded? then Settled(global, ids, "global", r.usage, reserve, doneAt) else global) &&
                EventsOf(assistant) == if r.Responded? then Settled(own, ids, "personal", r.usage, reserve, doneAt) else own
    {
      var mine := PersonalBucket(assistant);
      var reserve := Reservation(promptTokens, stage);
      if reserve > StageCap(stage) {
        return Failed(CapExceeded(reserve));
      }
      if stage == SearchCall {
        r := SearchBranch(reserve, now, reply, doneAt);
      } else {
        r := OrdinaryBranch(assistant, reserve, now, reply, doneAt);
      }
    }
  }
}
