// The Python side of the daemon protocol (src/IR_Ensemble/QA_Assistant/daemon_wrapper.py):
// `JVMDaemon` registers a future per request under a random id, writes the
// framed request, and a reader task resolves the futures from the daemon's
// response frames. The subprocess, the asyncio tasks and the write lock are
// not modelled: submissions and frame handling are sequential steps.
module DaemonClient {
  import opened Wrappers
  import opened Json
  import opened JsonCodec
  import opened Framing
  import opened Decimal
  import opened SearcherDaemon

  /** What fails the pending futures when the reader loop stops. */
  datatype ReaderError =
    | DaemonClosed   // IncompleteReadError: RuntimeError("JVM daemon closed stdout")
    | NoLength       // RuntimeError("Missing Content-Length header") from `_read_frame`
    | Undecodable    // UnicodeDecodeError / JSONDecodeError on a body
    | NotAnObject    // AttributeError: the body is not a JSON object
    | UnhashableId   // TypeError: the id is a list or an object

  datatype Future = Waiting | Resolved(value: Json) | Failed(error: ReaderError)

  /** The client's state: futures by request id, every future created, and the bytes written to the JVM. */
  datatype Client = Client(pending: map<string, nat>, futures: seq<Future>, sent: seq<Byte>)

  /** Every pending id refers to an existing future, and no two ids to the same one. */
  ghost predicate Valid(c: Client)
  {
    (forall k :: k in c.pending ==> c.pending[k] < |c.futures|) &&
    (forall k1, k2 :: k1 in c.pending && k2 in c.pending && k1 != k2 ==> c.pending[k1] != c.pending[k2])
  }

  /** The request body: `{"id": ..., "call": ..., "params": [...]}`. */
  function RequestJson(id: string, call: string, params: seq<string>): (j: Json)
    ensures Get(j, "id") == Some(JString(id)) && Get(j, "call") == Some(JString(call))
    ensures Get(j, "params") == Some(JArray(seq(|params|, i requires 0 <= i < |params| => JString(params[i]))))
  {
    var ms := [("id", JString(id)), ("call", JString(call)),
               ("params", JArray(seq(|params|, i requires 0 <= i < |params| => JString(params[i]))))];
    LookupUnique(ms, 0);
    LookupUnique(ms, 1);
    LookupUnique(ms, 2);
    JObject(ms)
  }

  /** `_submit` before it awaits: a new future under `id`, then the framed request written. */
  function Submitted(c: Client, codec: Codec, id: string, call: string, params: seq<string>): Client
  {
    Client(c.pending[id := |c.futures|], c.futures + [Waiting],
           c.sent + Frame(codec.pyDumps(RequestJson(id, call, params))))
  }

  /** What the reader does with one response body. */
  datatype Action = Abort(error: ReaderError) | Deliver(key: Option<string>, value: Json)

  /** The value a future is resolved with: `resultJson or result or resp` on status 0, else `resp`. */
  function ClientValue(resp: Json): Json
  {
    if EqualsZero(GetOrNull(resp, "status")) then
      Or(Or(GetOrNull(resp, "resultJson"), GetOrNull(resp, "result")), resp)
    else resp
  }

  /**
   * Decoding one body: it must be JSON, an object, and its id hashable; a
   * string id names the future to resolve, any other id matches none.
   */
  function Handle(raw: seq<Byte>, codec: Codec): Action
  {
    match codec.pyLoads(raw)
    case None => Abort(Undecodable)
    case Some(resp) =>
      if !resp.JObject? then Abort(NotAnObject)
      else
        match Get(resp, "id")
        case Some(JString(s)) => Deliver(Some(s), ClientValue(resp))
        case Some(JArray(_)) => Abort(UnhashableId)
        case Some(JObject(_)) => Abort(UnhashableId)
        case _ => Deliver(None, ClientValue(resp))
  }

  /** `pending.pop(id)`, then resolve that future unless it is already done. */
  function Delivered(c: Client, key: Option<string>, value: Json): (d: Client)
    ensures |d.futures| == |c.futures| && d.sent == c.sent && d.pending.Keys <= c.pending.Keys
  {
    if key.Some? && key.value in c.pending then
      var i := c.pending[key.value];
      var pending := c.pending - {key.value};
      if i < |c.futures| && c.futures[i].Waiting? then Client(pending, c.futures[i := Resolved(value)], c.sent)
      else Client(pending, c.futures, c.sent)
    else c
  }

  /** Every future still referenced by `pending` and not done fails with `e`; `pending` keeps its entries. */
  function FailedAll(c: Client, e: ReaderError): (d: Client)
    ensures |d.futures| == |c.futures| && d.sent == c.sent && d.pending == c.pending
  {
    Client(c.pending,
           seq(|c.futures|, i requires 0 <= i < |c.futures| =>
             if c.futures[i].Waiting? && i in c.pending.Values then Failed(e) else c.futures[i]),
           c.sent)
  }

  /** The reader loop over everything the daemon writes, up to end of output. */
  function ReadAll(c: Client, stdout: seq<Byte>, codec: Codec): (d: Client)
    ensures |d.futures| == |c.futures| && d.sent == c.sent && d.pending.Keys <= c.pending.Keys
    decreases |stdout|
  {
    match ReadFrame(stdout)
    case Err(IncompleteRead) => FailedAll(c, DaemonClosed)
    case Err(MissingLength) => FailedAll(c, NoLength)
    case Ok((raw, rest)) =>
      match Handle(raw, codec)
      case Abort(e) => FailedAll(c, e)
      case Deliver(key, value) => ReadAll(Delivered(c, key, value), rest, codec)
  }

  /** `d` keeps every future of `c`, and every future `c` had already completed is unchanged in `d`. */
  ghost predicate Settled(c: Client, d: Client)
  {
    |c.futures| <= |d.futures| &&
    forall i :: 0 <= i < |c.futures| && !c.futures[i].Waiting? ==> d.futures[i] == c.futures[i]
  }

  /** A submission creates a waiting future reachable under its id and leaves every other future alone. */
  lemma SubmittedRegisters(c: Client, codec: Codec, id: string, call: string, params: seq<string>)
    requires Valid(c)
    ensures var d := Submitted(c, codec, id, call, params);
            Valid(d) && Settled(c, d) && d.pending[id] == |c.futures| && d.futures[|c.futures|] == Waiting &&
            forall i :: 0 <= i < |c.futures| ==> d.futures[i] == c.futures[i]
  {
    var d := Submitted(c, codec, id, call, params);
    forall k1, k2 | k1 in d.pending && k2 in d.pending && k1 != k2
      ensures d.pending[k1] != d.pending[k2]
    {
      if k1 != id && k2 != id {
        assert d.pending[k1] == c.pending[k1] && d.pending[k2] == c.pending[k2];
      }
    }
  }

  /** Handling a response keeps the table consistent and never changes a completed future. */
  lemma DeliveredKeeps(c: Client, key: Option<string>, value: Json)
    requires Valid(c)
    ensures Valid(Delivered(c, key, value)) && Settled(c, Delivered(c, key, value))
    ensures |Delivered(c, key, value).futures| == |c.futures|
    ensures Delivered(c, key, value).pending.Keys <= c.pending.Keys
    ensures forall k :: k in Delivered(c, key, value).pending ==> Delivered(c, key, value).pending[k] == c.pending[k]
  {
  }

  /** Failing the pending futures keeps the table, and completes every future it references. */
  lemma FailedAllKeeps(c: Client, e: ReaderError)
    requires Valid(c)
    ensures Valid(FailedAll(c, e)) && Settled(c, FailedAll(c, e))
    ensures forall k :: k in c.pending ==> !FailedAll(c, e).futures[c.pending[k]].Waiting?
  {
    forall k | k in c.pending ensures !FailedAll(c, e).futures[c.pending[k]].Waiting? {
      assert c.pending[k] in c.pending.Values;
    }
  }

  /**
   * When the daemon's output ends or can no longer be read, no future that
   * was pending when reading began is left waiting, and no completed future
   * ever changes.
   */
  lemma {:induction false} ReadAllSettles(c: Client, stdout: seq<Byte>, codec: Codec)
    requires Valid(c)
    ensures Valid(ReadAll(c, stdout, codec)) && Settled(c, ReadAll(c, stdout, codec))
    ensures forall k :: k in c.pending ==> !ReadAll(c, stdout, codec).futures[c.pending[k]].Waiting?
    decreases |stdout|
  {
    var r := ReadAll(c, stdout, codec);
    match ReadFrame(stdout)
    case Err(_) => FailedAllKeeps(c, if ReadFrame(stdout).error.IncompleteRead? then DaemonClosed else NoLength);
    case Ok((raw, rest)) =>
      match Handle(raw, codec)
      case Abort(e) => FailedAllKeeps(c, e);
      case Deliver(key, value) =>
        var d := Delivered(c, key, value);
        DeliveredKeeps(c, key, value);
        ReadAllSettles(d, rest, codec);
        assert r == ReadAll(d, rest, codec);
        SettledAfterDelivery(c, key, value, r);
  }

  /** What the loop settles after a delivery, it settles from before the delivery. */
  lemma SettledAfterDelivery(c: Client, key: Option<string>, value: Json, r: Client)
    requires Valid(c)
    requires var d := Delivered(c, key, value);
             Settled(d, r) && forall k :: k in d.pending ==> !r.futures[d.pending[k]].Waiting?
    ensures Settled(c, r)
    ensures forall k :: k in c.pending ==> !r.futures[c.pending[k]].Waiting?
  {
    var d := Delivered(c, key, value);
    DeliveredKeeps(c, key, value);
    forall k | k in c.pending ensures !r.futures[c.pending[k]].Waiting? {
      var i := c.pending[k];
      if k in d.pending {
        assert d.pending[k] == i;
      } else {
        assert key == Some(k) && d.pending == c.pending - {k};
        assert d.futures == if c.futures[i].Waiting? then c.futures[i := Resolved(value)] else c.futures;
        assert !d.futures[i].Waiting?;
      }
    }
  }

  /**
   * Two submissions that draw the same random id: the second replaces the
   * first in the table, the response to the first resolves the second
   * future, and the first future is never resolved or failed.
   */
  lemma IdCollisionOrphans(codec: Codec, id: string, call: string, p1: seq<string>, p2: seq<string>, v: Json, stdout: seq<Byte>)
    ensures var c := Submitted(Submitted(Client(map[], [], []), codec, id, call, p1), codec, id, call, p2);
            var d := Delivered(c, Some(id), v);
            d.futures == [Waiting, Resolved(v)] && d.pending == map[] &&
            ReadAll(d, stdout, codec).futures[0] == Waiting
  {
    var c := Submitted(Submitted(Client(map[], [], []), codec, id, call, p1), codec, id, call, p2);
    var d := Delivered(c, Some(id), v);
    assert c.pending == map[id := 1];
    assert d.pending == map[];
    OrphanStaysWaiting(d, stdout, codec, 0);
  }

  /** A waiting future no pending id refers to stays waiting through the reader loop. */
  lemma {:induction false} OrphanStaysWaiting(c: Client, stdout: seq<Byte>, codec: Codec, i: nat)
    requires i < |c.futures| && c.futures[i].Waiting? && i !in c.pending.Values
    ensures i < |ReadAll(c, stdout, codec).futures| && ReadAll(c, stdout, codec).futures[i].Waiting?
    decreases |stdout|
  {
    match ReadFrame(stdout)
    case Err(_) =>
    case Ok((raw, rest)) =>
      match Handle(raw, codec)
      case Abort(e) =>
      case Deliver(key, value) =>
        var d := Delivered(c, key, value);
        assert i !in d.pending.Values by {
          forall k | k in d.pending ensures d.pending[k] != i {
            assert d.pending[k] == c.pending[k];
          }
        }
        OrphanStaysWaiting(d, rest, codec, i);
  }

  /**
   * With agreeing codecs, a series of well-formed responses to pending
   * requests with distinct ids resolves each request's future with the
   * value its response carries.
   */
  lemma {:induction false} ResolvesEach(c: Client, codec: Codec, resps: seq<Json>, ids: seq<string>, tickets: seq<nat>)
    requires Agree(codec) && Valid(c)
    requires |ids| == |resps| == |tickets|
    requires forall i :: 0 <= i < |resps| ==> resps[i].JObject? && Get(resps[i], "id") == Some(JString(ids[i]))
    requires forall i, j :: 0 <= i < j < |ids| ==> ids[i] != ids[j]
    requires forall i :: 0 <= i < |ids| ==>
               ids[i] in c.pending && c.pending[ids[i]] == tickets[i] && c.futures[tickets[i]] == Waiting
    ensures forall i :: 0 <= i < |resps| ==>
              ReadAll(c, ResponseFrames(codec, resps), codec).futures[tickets[i]] == Resolved(ClientValue(resps[i]))
    decreases |resps|
  {
    if |resps| > 0 {
      var rest := ResponseFrames(codec, resps[1..]);
      var d := Delivered(c, Some(ids[0]), ClientValue(resps[0]));
      assert ResponseFrames(codec, resps) == Frame(codec.javaWrite(resps[0])) + rest;
      ReadsResponse(c, codec, resps[0], ids[0], rest);
      DeliveredWaiting(c, ids, tickets, ClientValue(resps[0]));
      ResolvesEach(d, codec, resps[1..], ids[1..], tickets[1..]);
      ReadAllSettles(d, rest, codec);
      ResolvedStays(d, ReadAll(d, rest, codec), resps, tickets);
    }
  }

  /** After the first delivery, the remaining ids are still pending on waiting futures. */
  lemma DeliveredWaiting(c: Client, ids: seq<string>, tickets: seq<nat>, value: Json)
    requires Valid(c) && 0 < |ids| == |tickets|
    requires forall i, j :: 0 <= i < j < |ids| ==> ids[i] != ids[j]
    requires forall i :: 0 <= i < |ids| ==>
               ids[i] in c.pending && c.pending[ids[i]] == tickets[i] && c.futures[tickets[i]] == Waiting
    ensures var d := Delivered(c, Some(ids[0]), value);
            Valid(d) && d.futures[tickets[0]] == Resolved(value) &&
            forall i :: 0 <= i < |ids| - 1 ==>
              ids[1..][i] in d.pending && d.pending[ids[1..][i]] == tickets[1..][i] && d.futures[tickets[1..][i]] == Waiting
  {
    var d := Delivered(c, Some(ids[0]), value);
    DeliveredKeeps(c, Some(ids[0]), value);
    forall i | 1 <= i < |ids|
      ensures ids[i] in d.pending && d.pending[ids[i]] == tickets[i] && d.futures[tickets[i]] == Waiting
    {
      assert ids[i] != ids[0];
      assert tickets[i] != tickets[0];
    }
  }

  /** A future resolved before the remaining frames stays resolved; the rest are resolved by them. */
  lemma ResolvedStays(d: Client, r: Client, resps: seq<Json>, tickets: seq<nat>)
    requires 0 < |resps| == |tickets| && |d.futures| == |r.futures|
    requires forall i :: 0 <= i < |tickets| ==> tickets[i] < |d.futures|
    requires d.futures[tickets[0]] == Resolved(ClientValue(resps[0])) && Settled(d, r)
    requires forall i :: 0 <= i < |resps| - 1 ==> r.futures[tickets[1..][i]] == Resolved(ClientValue(resps[1..][i]))
    ensures forall i :: 0 <= i < |resps| ==> r.futures[tickets[i]] == Resolved(ClientValue(resps[i]))
  {
    forall i | 0 <= i < |resps|
      ensures r.futures[tickets[i]] == Resolved(ClientValue(resps[i]))
    {
      if i > 0 {
        assert resps[1..][i - 1] == resps[i] && tickets[1..][i - 1] == tickets[i];
      }
    }
  }

  /** The reader takes one well-formed response frame as a delivery under its id. */
  lemma ReadsResponse(c: Client, codec: Codec, resp: Json, id: string, rest: seq<Byte>)
    requires Agree(codec)
    requires resp.JObject? && Get(resp, "id") == Some(JString(id))
    ensures ReadAll(c, Frame(codec.javaWrite(resp)) + rest, codec) ==
            ReadAll(Delivered(c, Some(id), ClientValue(resp)), rest, codec)
  {
    var raw := codec.javaWrite(resp);
    PyReadsFrame(raw, rest);
    assert codec.pyLoads(raw) == Some(resp);
    assert Handle(raw, codec) == Deliver(Some(id), ClientValue(resp));
  }

  /** One request as `_submit` is called with it. */
  datatype Call = Call(id: string, call: string, params: seq<string>)

  function CallJson(q: Call): Json
  {
    RequestJson(q.id, q.call, q.params)
  }

  /** The client after submitting each call in turn. */
  function SubmittedAll(c: Client, codec: Codec, calls: seq<Call>): (d: Client)
    ensures |d.futures| == |c.futures| + |calls|
  {
    if |calls| == 0 then c
    else
      var last := calls[|calls| - 1];
      Submitted(SubmittedAll(c, codec, calls[..|calls| - 1]), codec, last.id, last.call, last.params)
  }

  /** The request stream grows by one frame per submission. */
  lemma {:induction false} RequestStreamSnoc(codec: Codec, reqs: seq<Json>)
    requires |reqs| > 0
    ensures RequestStream(codec, reqs) ==
            RequestStream(codec, reqs[..|reqs| - 1]) + Frame(codec.pyDumps(reqs[|reqs| - 1]))
    decreases |reqs|
  {
    if |reqs| > 1 {
      RequestStreamSnoc(codec, reqs[1..]);
      assert reqs[1..][..|reqs| - 2] == reqs[..|reqs| - 1][1..];
    } else {
      assert RequestStream(codec, reqs[..0]) == [];
      assert RequestStream(codec, reqs[1..]) == [];
    }
  }

  /** The request bodies of a series of calls. */
  function CallsJson(calls: seq<Call>): (js: seq<Json>)
    ensures |js| == |calls| && forall i :: 0 <= i < |calls| ==> js[i] == CallJson(calls[i])
  {
    seq(|calls|, i requires 0 <= i < |calls| => CallJson(calls[i]))
  }

  /**
   * Submitting calls with distinct ids to a fresh client: future `i` waits
   * under the `i`-th id, and the bytes written are the calls' frames in order.
   */
  lemma {:induction false} SubmittedAllFresh(codec: Codec, calls: seq<Call>)
    requires forall i, j :: 0 <= i < j < |calls| ==> calls[i].id != calls[j].id
    ensures var d := SubmittedAll(Client(map[], [], []), codec, calls);
            Valid(d) && d.sent == RequestStream(codec, CallsJson(calls)) &&
            forall i :: 0 <= i < |calls| ==> calls[i].id in d.pending && d.pending[calls[i].id] == i && d.futures[i] == Waiting
    decreases |calls|
  {
    if |calls| > 0 {
      var n := |calls| - 1;
      var init := calls[..n];
      var last := calls[n];
      SubmittedAllFresh(codec, init);
      var c := SubmittedAll(Client(map[], [], []), codec, init);
      var d := Submitted(c, codec, last.id, last.call, last.params);
      assert SubmittedAll(Client(map[], [], []), codec, calls) == d;
      SentGrows(codec, calls);
      forall i | 0 <= i < n
        ensures calls[i].id in c.pending && c.pending[calls[i].id] == i && c.futures[i] == Waiting
      {
        assert init[i] == calls[i];
      }
      SubmittedNext(c, codec, calls);
    }
  }

  /** Submitting the last call keeps the earlier ids where they were and adds the last one. */
  lemma SubmittedNext(c: Client, codec: Codec, calls: seq<Call>)
    requires Valid(c) && 0 < |calls| && |c.futures| == |calls| - 1
    requires forall i, j :: 0 <= i < j < |calls| ==> calls[i].id != calls[j].id
    requires forall i :: 0 <= i < |calls| - 1 ==>
               calls[i].id in c.pending && c.pending[calls[i].id] == i && c.futures[i] == Waiting
    ensures var last := calls[|calls| - 1];
            var d := Submitted(c, codec, last.id, last.call, last.params);
            Valid(d) &&
            forall i :: 0 <= i < |calls| ==> calls[i].id in d.pending && d.pending[calls[i].id] == i && d.futures[i] == Waiting
  {
    var n := |calls| - 1;
    var last := calls[n];
    var d := Submitted(c, codec, last.id, last.call, last.params);
    SubmittedRegisters(c, codec, last.id, last.call, last.params);
    forall i | 0 <= i < |calls|
      ensures calls[i].id in d.pending && d.pending[calls[i].id] == i && d.futures[i] == Waiting
    {
      if i < n {
        assert calls[i].id != last.id;
      }
    }
  }

  /** The request stream of the calls is that of all but the last, then the last's frame. */
  lemma SentGrows(codec: Codec, calls: seq<Call>)
    requires |calls| > 0
    ensures RequestStream(codec, CallsJson(calls)) ==
            RequestStream(codec, CallsJson(calls[..|calls| - 1])) + Frame(codec.pyDumps(CallJson(calls[|calls| - 1])))
  {
    var n := |calls| - 1;
    var js, init := CallsJson(calls), CallsJson(calls[..n]);
    assert |js[..n]| == |init|;
    forall i | 0 <= i < n
      ensures js[..n][i] == init[i]
    {
      assert calls[..n][i] == calls[i];
    }
    assert js[..n] == init;
    RequestStreamSnoc(codec, js);
  }

  /** The daemon reads back the id, call name and parameters the client wrote. */
  lemma DaemonReadsRequest(id: string, call: string, params: seq<string>)
    ensures var req := Present(RequestJson(id, call, params));
            RequestId(req) == id && CallName(req) == call && Params(req) == params
  {
    var req := Present(RequestJson(id, call, params));
    assert ElementsOf(PathOf(req, "params")) == seq(|params|, i requires 0 <= i < |params| => JString(params[i]));
  }

  /**
   * What the future holds for each outcome: a successful call's non-empty
   * result text, otherwise the whole response (an empty result is falsy,
   * and a failure keeps its exception fields for the caller to raise).
   */
  lemma FutureValue(id: string, o: CallOutcome)
    requires !o.Exited?
    ensures o.Done? && o.result != "" ==> ClientValue(ResponseJson(id, o)) == JString(o.result)
    ensures o.Done? && o.result == "" ==> ClientValue(ResponseJson(id, o)) == ResponseJson(id, o)
    ensures o.Threw? ==> ClientValue(ResponseJson(id, o)) == ResponseJson(id, o)
  {
    var resp := ResponseJson(id, o);
    if o.Done? {
      assert resp.members[0].0 != "resultJson" && resp.members[1].0 != "resultJson" && resp.members[2].0 != "resultJson";
      assert Get(resp, "resultJson") == None;
    }
  }

  /** The daemon's response to a call the client wrote carries that call's id. */
  lemma ResponseEchoes(env: Env, q: Call)
    ensures ReplyTo(Present(CallJson(q)), env).Respond? ==>
              ReplyTo(Present(CallJson(q)), env).resp.JObject? &&
              Get(ReplyTo(Present(CallJson(q)), env).resp, "id") == Some(JString(q.id))
  {
    ReplyEchoesId(Present(CallJson(q)), env);
    DaemonReadsRequest(q.id, q.call, q.params);
  }

  /**
   * End to end: a fresh client submits calls with distinct ids, the daemon
   * serves everything it was sent, and the reader reads everything the
   * daemon wrote. When the codecs agree and no call exits the JVM, the
   * daemon stops at the end of its input and every call's future is
   * resolved with the value of that call's own response.
   */
  lemma EveryCallResolved(env: Env, calls: seq<Call>)
    requires Agree(env.codec)
    requires forall i, j :: 0 <= i < j < |calls| ==> calls[i].id != calls[j].id
    requires AllAnswered(env.codec, Answer(env), CallsJson(calls))
    ensures var c := SubmittedAll(Client(map[], [], []), env.codec, calls);
            var served := Served(c.sent, env.codec, Answer(env));
            served.1 == InputClosed &&
            forall i :: 0 <= i < |calls| ==>
              ReadAll(c, served.0, env.codec).futures[i] ==
              Resolved(ClientValue(ReplyTo(Present(CallJson(calls[i])), env).resp))
  {
    EveryResponseEchoes(env, calls);
    AnsweredResolved(env.codec, Answer(env), calls);
  }

  /** `ResponseEchoes` for every call of a series, as the daemon's answering function sees them. */
  lemma EveryResponseEchoes(env: Env, calls: seq<Call>)
    ensures forall i :: 0 <= i < |calls| ==>
              Answer(env)(Present(CallsJson(calls)[i])) == ReplyTo(Present(CallJson(calls[i])), env)
    ensures forall i :: 0 <= i < |calls| ==>
              var r := Answer(env)(Present(CallsJson(calls)[i]));
              r.Respond? ==> r.resp.JObject? && Get(r.resp, "id") == Some(JString(calls[i].id))
  {
    forall i | 0 <= i < |calls|
      ensures Answer(env)(Present(CallsJson(calls)[i])) == ReplyTo(Present(CallJson(calls[i])), env)
      ensures var r := Answer(env)(Present(CallsJson(calls)[i]));
              r.Respond? ==> r.resp.JObject? && Get(r.resp, "id") == Some(JString(calls[i].id))
    {
      ResponseEchoes(env, calls[i]);
    }
  }

  /** `EveryCallResolved` for any answering function that echoes ids. */
  lemma AnsweredResolved(codec: Codec, answer: Node -> Reply, calls: seq<Call>)
    requires Agree(codec)
    requires forall i, j :: 0 <= i < j < |calls| ==> calls[i].id != calls[j].id
    requires AllAnswered(codec, answer, CallsJson(calls))
    requires forall i :: 0 <= i < |calls| ==>
               var r := answer(Present(CallsJson(calls)[i]));
               r.Respond? ==> r.resp.JObject? && Get(r.resp, "id") == Some(JString(calls[i].id))
    ensures var c := SubmittedAll(Client(map[], [], []), codec, calls);
            var served := Served(c.sent, codec, answer);
            served.1 == InputClosed &&
            forall i :: 0 <= i < |calls| ==>
              ReadAll(c, served.0, codec).futures[i] == Resolved(ClientValue(answer(Present(CallsJson(calls)[i])).resp))
  {
    var reqs := CallsJson(calls);
    var c := SubmittedAll(Client(map[], [], []), codec, calls);
    SubmittedAllFresh(codec, calls);
    OneResponsePerRequest(codec, answer, reqs);
    var resps := Responses(answer, reqs);
    ResolvesCalls(c, codec, calls, resps);
  }

  /** `ResolvesEach` where call `i` waits on future `i`. */
  lemma ResolvesCalls(c: Client, codec: Codec, calls: seq<Call>, resps: seq<Json>)
    requires Agree(codec) && Valid(c) && |resps| == |calls| == |c.futures|
    requires forall i, j :: 0 <= i < j < |calls| ==> calls[i].id != calls[j].id
    requires forall i :: 0 <= i < |calls| ==>
               calls[i].id in c.pending && c.pending[calls[i].id] == i && c.futures[i] == Waiting
    requires forall i :: 0 <= i < |resps| ==> resps[i].JObject? && Get(resps[i], "id") == Some(JString(calls[i].id))
    ensures forall i :: 0 <= i < |calls| ==>
              ReadAll(c, ResponseFrames(codec, resps), codec).futures[i] == Resolved(ClientValue(resps[i]))
  {
    var ids := seq(|calls|, i requires 0 <= i < |calls| => calls[i].id);
    var tickets: seq<nat> := seq(|calls|, i requires 0 <= i < |calls| => i);
    forall i | 0 <= i < |ids|
      ensures ids[i] in c.pending && c.pending[ids[i]] == tickets[i] && c.futures[tickets[i]] == Waiting
    {
      assert ids[i] == calls[i].id && tickets[i] == i;
    }
    assert forall i :: 0 <= i < |resps| ==> resps[i].JObject? && Get(resps[i], "id") == Some(JString(ids[i]));
    assert forall i, j :: 0 <= i < j < |ids| ==> ids[i] != ids[j];
    ResolvesEach(c, codec, resps, ids, tickets);
    forall i | 0 <= i < |calls|
      ensures ReadAll(c, ResponseFrames(codec, resps), codec).futures[i] == Resolved(ClientValue(resps[i]))
    {
      assert tickets[i] == i;
    }
  }

  // ---------------------------------------------------------------- public calls

  /** `run_bm25_search`'s parameters: the queries, then the output path. */
  function SearchArgs(queries: seq<string>, outPath: string): seq<string>
  {
    queries + [outPath]
  }

  /**
   * A search request reaches the searcher with exactly the client's queries:
   * the JVM exits when there are none or more than `MaxQueries`, and
   * otherwise the response's status is 0 exactly when every query succeeds
   * and every payload the searcher writes parses.
   */
  lemma SearchDelivered(env: Env, id: string, queries: seq<string>, outPath: string)
    ensures var r := ReplyTo(Present(RequestJson(id, "search", SearchArgs(queries, outPath))), env);
            (r.Halt? <==> |queries| == 0 || |queries| > RootFusion.MaxQueries) &&
            (r.Respond? ==>
               (Get(r.resp, "status") == Some(JInt(0)) <==>
                  FirstNone(queries, env.search).None? && SearchOutput(queries, env).failure.None?))
  {
    var args := SearchArgs(queries, outPath);
    var req := Present(RequestJson(id, "search", args));
    DaemonReadsRequest(id, "search", args);
    assert args[..|args| - 1] == queries;
    SearchOutcome(args, env);
    ReplyStatus(req, env);
  }

  /** The reply halts exactly when the call exits the JVM, and reports status 0 exactly when the call is done. */
  lemma ReplyStatus(req: Node, env: Env)
    ensures var o := Dispatch(CallName(req), Params(req), env);
            var r := ReplyTo(req, env);
            (r.Halt? <==> o.Exited?) && (r.Respond? ==> (Get(r.resp, "status") == Some(JInt(0)) <==> o.Done?))
  {
  }

  /** `select_documents`' parameters: `--asSegments` first in segment mode, then the ids. */
  function SelectArgs(ids: seq<string>, isSegment: bool): seq<string>
  {
    (if isSegment then [DocumentSelection.SegmentFlag] else []) + ids
  }

  /** What `select_documents` returns: the decoded list, or text when decoding fails. */
  datatype Shaped = Items(items: seq<Json>) | Text(text: string)

  /**
   * `json.loads(raw)` on the future's value: a string that decodes gives
   * the list, or a one-element list around any other value; a string that
   * does not decode, and any value that is not a string, give `str(raw)`.
   */
  function ShapeSelection(raw: Json, codec: Codec): Shaped
  {
    if raw.JString? then
      match codec.pyLoadsText(raw.s)
      case None => Text(raw.s)
      case Some(JArray(items)) => Items(items)
      case Some(data) => Items([data])
    else Text(codec.pyStr(raw))
  }

  /** The items the caller should see for a selection: the array's elements, or the one object. */
  function SelectionItems(sel: DocumentSelection.Selection): seq<Json>
  {
    match SelectionJson(sel)
    case JArray(items) => items
    case j => [j]
  }

  /**
   * With agreeing codecs, `select_documents` gives back exactly the
   * selection's JSON items when the daemon's selection succeeds, and the
   * text of the whole failure response (never an exception) when it fails.
   */
  lemma SelectionDelivered(env: Env, id: string, ids: seq<string>, isSegment: bool)
    requires Agree(env.codec)
    ensures var args := SelectArgs(ids, isSegment);
            var r := ReplyTo(Present(RequestJson(id, "selectDocuments", args)), env);
            r.Respond? &&
            match DocumentSelection.Selected(args, env.terms)
            case Ok(sel) => ShapeSelection(ClientValue(r.resp), env.codec) == Items(SelectionItems(sel))
            case Err(e) =>
              ShapeSelection(ClientValue(r.resp), env.codec) == Text(env.codec.pyStr(ResponseJson(id, Threw(e))))
  {
    var args := SelectArgs(ids, isSegment);
    var req := Present(RequestJson(id, "selectDocuments", args));
    DaemonReadsRequest(id, "selectDocuments", args);
    var o := Dispatch("selectDocuments", args, env);
    assert ReplyTo(req, env) == Respond(ResponseJson(id, o));
    match DocumentSelection.Selected(args, env.terms)
    case Ok(sel) => SelectedShape(env.codec, id, sel);
    case Err(e) => FutureValue(id, Threw(e));
  }

  /** A successful selection's JSON text reaches the caller as the selection's items. */
  lemma SelectedShape(codec: Codec, id: string, sel: DocumentSelection.Selection)
    requires Agree(codec)
    ensures ShapeSelection(ClientValue(ResponseJson(id, Done(codec.javaText(SelectionJson(sel))))), codec) ==
            Items(SelectionItems(sel))
  {
    var text := codec.javaText(SelectionJson(sel));
    JavaTextNonEmpty(codec, SelectionJson(sel));
    FutureValue(id, Done(text));
    assert codec.pyLoadsText(text) == Some(SelectionJson(sel));
  }

  /** `JVMDaemon`: the pending table, the futures it hands out, and the bytes written to the JVM's stdin. */
  class JVMDaemon {
    var pending: map<string, nat>
    var futures: seq<Future>
    var sent: seq<Byte>

    function State(): Client
      reads this
    {
      Client(pending, futures, sent)
    }

    constructor()
      ensures State() == Client(map[], [], [])
    {
      pending, futures, sent := map[], [], [];
    }

    /** `_submit` up to the await: register the future under `id`, then write the frame. */
    method Submit(codec: Codec, id: string, call: string, params: seq<string>) returns (ticket: nat)
      modifies this
      ensures ticket == |old(futures)|
      ensures State() == Submitted(old(State()), codec, id, call, params)
    {
      ticket := |futures|;
      futures := futures + [Waiting];
      pending := pending[id := ticket];
      var body := codec.pyDumps(RequestJson(id, call, params));
      sent := sent + Frame(body);
    }

    /** The reader's handling of one response body; an error stops the loop. */
    method OnFrame(raw: seq<Byte>, codec: Codec) returns (abort: Option<ReaderError>)
      modifies this
      ensures Handle(raw, codec).Abort? ==> abort == Some(Handle(raw, codec).error) && State() == old(State())
      ensures Handle(raw, codec).Deliver? ==>
                abort == None && State() == Delivered(old(State()), Handle(raw, codec).key, Handle(raw, codec).value)
    {
      var action := Handle(raw, codec);
      if action.Abort? {
        return Some(action.error);
      }
      abort := None;
      if action.key.Some? && action.key.value in pending {
        var i := pending[action.key.value];
        pending := pending - {action.key.value};
        if i < |futures| && futures[i].Waiting? {
          futures := futures[i := Resolved(action.value)];
        }
      }
    }

    /** The `except` blocks: every pending future not yet done fails with `e`. */
    method FailPending(e: ReaderError)
      modifies this
      ensures State() == FailedAll(old(State()), e)
    {
      var keys := pending.Keys;
      ghost var failed: set<nat> := {};
      while keys != {}
        invariant keys <= pending.Keys && pending == old(pending) && sent == old(sent)
        invariant failed == set k | k in pending.Keys - keys :: pending[k]
        invariant |futures| == |old(futures)|
        invariant forall j :: 0 <= j < |futures| ==>
                    futures[j] == if old(futures)[j].Waiting? && j in failed then Failed(e) else old(futures)[j]
        decreases keys
      {
        var k :| k in keys;
        var i := pending[k];
        if i < |futures| && futures[i].Waiting? {
          futures := futures[i := Failed(e)];
        }
        keys := keys - {k};
        failed := failed + {i};
      }
      assert failed == pending.Values;
    }

    /** The reader task: frames are handled until reading or decoding fails. */
    method ReadLoop(stdout: seq<Byte>, codec: Codec)
      modifies this
      ensures State() == ReadAll(old(State()), stdout, codec)
    {
      var rest := stdout;
      while true
        invariant ReadAll(old(State()), stdout, codec) == ReadAll(State(), rest, codec)
        decreases |rest|
      {
        var frame := ReadFrame(rest);
        if frame.Err? {
          FailPending(if frame.error.IncompleteRead? then DaemonClosed else NoLength);
          return;
        }
        var abort := OnFrame(frame.value.0, codec);
        if abort.Some? {
          FailPending(abort.value);
          return;
        }
        rest := frame.value.1;
      }
    }
  }
}
