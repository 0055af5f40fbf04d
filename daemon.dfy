// The Java search daemon (src/IR_Ensemble/QA_Assistant/Search/SearcherDaemon.java):
// a loop that reads Content-Length frames from standard input, answers each
// request with one framed JSON response, and stops at end of input, at a
// header it cannot read, at a body Jackson cannot parse, or when a search
// calls `System.exit`. Requests are answered in order; the thread pool and
// the writer queue are not modelled.
module SearcherDaemon {
  import opened Wrappers
  import opened Strings
  import opened Json
  import opened JsonCodec
  import opened Framing
  import opened Decimal
  import opened JavaExceptions
  import opened Reassembly
  import DocumentSelection
  import RootFusion

  /** What the daemon works against: the segment index, the Lucene search and the codecs. */
  datatype Env = Env(terms: seq<Term>, search: RootFusion.Search, compact: RootFusion.Compact, codec: Codec)

  /** How a call ends: a result text, an exception caught by `main`'s task, or `System.exit`. */
  datatype CallOutcome = Done(result: string) | Threw(error: JavaException) | Exited(code: int)

  /** What the job does with a request: queue a response, or end the JVM. */
  datatype Reply = Respond(resp: Json) | Halt(code: int)

  /** Why the request loop stopped. */
  datatype End = InputClosed | HeaderFailed(read: HeaderRead) | RequestUnreadable | JvmExited(code: int)

  /** `node.path(key)` on a node that may itself be missing. */
  function PathOf(n: Node, key: string): Node
  {
    if n.Missing? then Missing else Path(n.value, key)
  }

  /** The values of `req.path(key)` that `forEach` visits. */
  function ElementsOf(n: Node): seq<Json>
  {
    if n.Missing? then [] else Elements(n.value)
  }

  function RequestId(req: Node): string
  {
    AsText(PathOf(req, "id"))
  }

  function CallName(req: Node): string
  {
    AsText(PathOf(req, "call"))
  }

  /** The call's parameters: `asText()` of each element of `params`. */
  function Params(req: Node): (ps: seq<string>)
    ensures |ps| == |ElementsOf(PathOf(req, "params"))|
  {
    var es := ElementsOf(PathOf(req, "params"));
    seq(|es|, i requires 0 <= i < |es| => AsText(Present(es[i])))
  }

  /** The exception a failed query leaves after `join`. */
  function QueryFailure(query: string): JavaException
  {
    Completion(JavaException("java.lang.RuntimeException", "Query failed: \"" + query + "\""))
  }

  /** The JSON text `DocumentSelection.run` returns. */
  function SelectionJson(sel: DocumentSelection.Selection): Json
  {
    match sel
    case Segments(items) =>
      JArray(seq(|items|, i requires 0 <= i < |items| =>
        JObject([("id", JString(items[i].id)), ("segment", JString(items[i].segment))])))
    case Full(doc) => JObject([("id", JString(doc.id)), ("fullText", JString(doc.fullText))])
  }

  /**
   * The `switch` on the call name: `search` runs the searcher, which exits
   * the JVM on a bad argument count and fails on the first failing query;
   * `selectDocuments` returns the selection's JSON text or its exception;
   * anything else is an `IllegalArgumentException`.
   */
  ghost function Dispatch(call: string, params: seq<string>, env: Env): CallOutcome
  {
    if call == "search" then
      if |params| < 2 || |params| - 1 > RootFusion.MaxQueries then Exited(1)
      else
        match FirstNone(params[..|params| - 1], env.search)
        case Some(i) => Threw(QueryFailure(params[i]))
        case None =>
          var out := SearchOutput(params[..|params| - 1], env);
          if out.failure.None? then Done("done") else Threw(out.failure.value)
    else if call == "selectDocuments" then
      match DocumentSelection.Selected(params, env.terms)
      case Err(e) => Threw(e)
      case Ok(sel) => Done(env.codec.javaText(SelectionJson(sel)))
    else Threw(IllegalArgument("unknown call"))
  }

  /** What the searcher's write loop leaves when every query succeeds. */
  ghost function SearchOutput(queries: seq<string>, env: Env): RootFusion.Output
    requires FirstNone(queries, env.search).None?
  {
    RootFusion.TopOutput(RootFusion.FoldAll(map[], RootFusion.HitLists(queries, env.search, |queries|)), env.compact)
  }

  /**
   * A search call exits the JVM on a bad argument count, and otherwise
   * succeeds exactly when every query does and every payload written parses.
   */
  lemma SearchOutcome(params: seq<string>, env: Env)
    ensures Dispatch("search", params, env).Exited? <==> |params| < 2 || |params| - 1 > RootFusion.MaxQueries
    ensures Dispatch("search", params, env).Done? <==>
              2 <= |params| <= RootFusion.MaxQueries + 1 && FirstNone(params[..|params| - 1], env.search).None? &&
              SearchOutput(params[..|params| - 1], env).failure.None?
  {
  }

  /** The response object: the echoed id, then status 0 and the result, or status 1 and the exception. */
  function ResponseJson(id: string, o: CallOutcome): (j: Json)
    requires !o.Exited?
    ensures Get(j, "id") == Some(JString(id))
    ensures o.Done? ==> Get(j, "status") == Some(JInt(0)) && Get(j, "result") == Some(JString(o.result))
    ensures o.Threw? ==> Get(j, "status") == Some(JInt(1)) &&
                         Get(j, "exception") == Some(JString(o.error.className)) &&
                         Get(j, "message") == Some(JString(o.error.message))
  {
    match o
    case Done(result) =>
      var ms := [("id", JString(id)), ("status", JInt(0)), ("result", JString(result))];
      LookupUnique(ms, 0);
      LookupUnique(ms, 1);
      LookupUnique(ms, 2);
      JObject(ms)
    case Threw(e) =>
      var ms := [("id", JString(id)), ("status", JInt(1)),
                 ("exception", JString(e.className)), ("message", JString(e.message))];
      LookupUnique(ms, 0);
      LookupUnique(ms, 1);
      LookupUnique(ms, 2);
      LookupUnique(ms, 3);
      JObject(ms)
  }

  /** The job submitted for one decoded request. */
  ghost function ReplyTo(req: Node, env: Env): Reply
  {
    match Dispatch(CallName(req), Params(req), env)
    case Exited(code) => Halt(code)
    case o => Respond(ResponseJson(RequestId(req), o))
  }

  /** A response echoes the request's id as a string, in an object. */
  lemma ReplyEchoesId(req: Node, env: Env)
    ensures ReplyTo(req, env).Respond? ==>
              ReplyTo(req, env).resp.JObject? && Get(ReplyTo(req, env).resp, "id") == Some(JString(RequestId(req)))
  {
  }

  /** The searcher's outcome, as `main`'s task turns it into a call outcome. */
  lemma SearchReply(params: seq<string>, env: Env, outcome: RootFusion.SearchOutcome)
    requires |params| < 2 || |params| - 1 > RootFusion.MaxQueries <==> outcome == RootFusion.Exit(1)
    requires 2 <= |params| <= RootFusion.MaxQueries + 1 ==>
               match FirstNone(params[..|params| - 1], env.search)
               case Some(i) => outcome == RootFusion.QueryFailed(params[..|params| - 1][i])
               case None =>
                 var out := SearchOutput(params[..|params| - 1], env);
                 outcome == if out.failure.None? then RootFusion.Written(params[|params| - 1], out.lines)
                            else RootFusion.WriteFailed(params[|params| - 1], out.lines, out.failure.value)
    ensures Dispatch("search", params, env) ==
              if outcome.Exit? then Exited(outcome.code)
              else if outcome.QueryFailed? then Threw(QueryFailure(outcome.query))
              else if outcome.WriteFailed? then Threw(outcome.error)
              else Done("done")
  {
  }

  /**
   * One call's task: the real searcher and selection are run and their
   * outcomes turned into the response the spec function describes.
   */
  method HandleRequest(req: Node, env: Env) returns (r: Reply)
    ensures r == ReplyTo(req, env)
  {
    var id := RequestId(req);
    var call := CallName(req);
    var params := Params(req);
    var o: CallOutcome;
    if call == "search" {
      var outcome := RootFusion.SearcherMain(params, env.search, env.compact);
      SearchReply(params, env, outcome);
      if outcome.Exit? {
        o := Exited(outcome.code);
      } else if outcome.QueryFailed? {
        o := Threw(QueryFailure(outcome.query));
      } else if outcome.WriteFailed? {
        o := Threw(outcome.error);
      } else {
        o := Done("done");
      }
    } else if call == "selectDocuments" {
      var selected := DocumentSelection.Run(params, env.terms);
      if selected.Err? {
        o := Threw(selected.error);
      } else {
        o := Done(env.codec.javaText(SelectionJson(selected.value)));
      }
    } else {
      o := Threw(IllegalArgument("unknown call"));
    }
    assert o == Dispatch(call, params, env);
    if o.Exited? {
      return Halt(o.code);
    }
    return Respond(ResponseJson(id, o));
  }


  /**
   * The request loop on the whole of standard input: the bytes written to
   * standard output and why the loop stopped. A header is read up to the
   * first blank line; end of input before one closes the loop.
   */
  function Served(input: seq<Byte>, codec: Codec, answer: Node -> Reply): (seq<Byte>, End)
    decreases |input|, 1
  {
    match JavaHeaderEnd(input, 0)
    case None => ([], InputClosed)
    case Some(k) => ServedRequest(input, k, codec, answer)
  }

  /**
   * One pass of the loop once a header of `k` bytes is read: the
   * Content-Length, `readNBytes` of that many bytes (fewer when the input
   * ends early), Jackson's parse and the job's reply; whether the loop
   * stops there, the response frame it writes, and how many bytes of input
   * the header and the body use up.
   */
  function Pass(input: seq<Byte>, k: nat, codec: Codec, answer: Node -> Reply): (p: (Option<End>, seq<Byte>, int))
    requires 0 < k <= |input|
    ensures p.0.None? ==> k <= p.2 <= |input|
  {
    match JavaHeaderValue(input[..k])
    case Length(n) =>
      var body := Take(input[k..], n);
      (match codec.javaRead(body)
       case None => (Some(RequestUnreadable), [], 0)
       case Some(req) =>
         (match answer(req)
          case Halt(code) => (Some(JvmExited(code)), [], 0)
          case Respond(resp) => (None, Frame(codec.javaWrite(resp)), k + |body|)))
    case read => (Some(HeaderFailed(read)), [], 0)
  }

  /**
   * The rest of the loop once a header of `k` bytes is read: one pass,
   * then, unless it stopped the loop, the loop on the input it leaves.
   */
  function ServedRequest(input: seq<Byte>, k: nat, codec: Codec, answer: Node -> Reply): (seq<Byte>, End)
    requires 0 < k <= |input|
    decreases |input|, 0
  {
    var (stop, frame, consumed) := Pass(input, k, codec, answer);
    if stop.Some? then ([], stop.value)
    else
      var (more, end) := Served(input[consumed..], codec, answer);
      (frame + more, end)
  }

  /** An answered request puts its response frame before what the rest of the input yields. */
  lemma ServedRespond(input: seq<Byte>, codec: Codec, answer: Node -> Reply, k: nat, n: nat, req: Node, resp: Json)
    requires JavaHeaderEnd(input, 0) == Some(k)
    requires JavaHeaderValue(input[..k]) == Length(n)
    requires codec.javaRead(Take(input[k..], n)) == Some(req)
    requires answer(req) == Respond(resp)
    ensures Served(input, codec, answer).0 ==
            Frame(codec.javaWrite(resp)) + Served(input[k + |Take(input[k..], n)|..], codec, answer).0
    ensures Served(input, codec, answer).1 == Served(input[k + |Take(input[k..], n)|..], codec, answer).1
  {
    ServedHeader(input, codec, answer, k);
    PassResponds(input, codec, answer, k, n, req, resp);
  }

  /** Once a header is read, the loop goes on as `ServedRequest` says. */
  lemma ServedHeader(input: seq<Byte>, codec: Codec, answer: Node -> Reply, k: nat)
    requires JavaHeaderEnd(input, 0) == Some(k)
    ensures 0 < k <= |input| && Served(input, codec, answer) == ServedRequest(input, k, codec, answer)
  {
  }

  /** A pass over a readable request that the job answers writes its frame and uses up header and body. */
  lemma PassResponds(input: seq<Byte>, codec: Codec, answer: Node -> Reply, k: nat, n: nat, req: Node, resp: Json)
    requires 0 < k <= |input|
    requires JavaHeaderValue(input[..k]) == Length(n)
    requires codec.javaRead(Take(input[k..], n)) == Some(req)
    requires answer(req) == Respond(resp)
    ensures Pass(input, k, codec, answer) == (None, Frame(codec.javaWrite(resp)), k + |Take(input[k..], n)|)
  {
  }

  /** The body and the rest of the input after a frame's header. */
  lemma FrameParts(body: seq<Byte>, tail: seq<Byte>)
    ensures var k := |Header(|body|)|;
            (Frame(body) + tail)[k..] == body + tail &&
            Take((Frame(body) + tail)[k..], |body|) == body &&
            (Frame(body) + tail)[k + |body|..] == tail
  {
    var h := Header(|body|);
    assert Frame(body) + tail == h + (body + tail);
    assert (h + (body + tail))[|h|..] == body + tail;
    assert (body + tail)[..|body|] == body;
    assert (h + (body + tail))[|h| + |body|..] == tail;
  }

  /** A framed request whose task answers puts the response frame before what the rest of the input yields. */
  lemma ServedFrame(body: seq<Byte>, tail: seq<Byte>, codec: Codec, answer: Node -> Reply, req: Node, resp: Json)
    requires |body| <= JavaIntMax
    requires codec.javaRead(body) == Some(req) && answer(req) == Respond(resp)
    ensures Served(Frame(body) + tail, codec, answer).0 == Frame(codec.javaWrite(resp)) + Served(tail, codec, answer).0
    ensures Served(Frame(body) + tail, codec, answer).1 == Served(tail, codec, answer).1
  {
    var input := Frame(body) + tail;
    var k := |Header(|body|)|;
    JavaReadsFrame(body, tail);
    FrameParts(body, tail);
    ServedRespond(input, codec, answer, k, |body|, req, resp);
  }

  /** The bytes the Python client writes for a series of requests: one frame each. */
  function RequestStream(codec: Codec, reqs: seq<Json>): seq<Byte>
  {
    if |reqs| == 0 then [] else Frame(codec.pyDumps(reqs[0])) + RequestStream(codec, reqs[1..])
  }

  /** Every request is answered, and fits in a Java `int` length. */
  ghost predicate AllAnswered(codec: Codec, answer: Node -> Reply, reqs: seq<Json>)
  {
    forall i :: 0 <= i < |reqs| ==>
      |codec.pyDumps(reqs[i])| <= JavaIntMax && answer(Present(reqs[i])).Respond?
  }

  /** The responses the jobs give to a series of answered requests, in request order. */
  function Responses(answer: Node -> Reply, reqs: seq<Json>): (rs: seq<Json>)
    requires forall i :: 0 <= i < |reqs| ==> answer(Present(reqs[i])).Respond?
    ensures |rs| == |reqs|
    ensures forall i :: 0 <= i < |reqs| ==> rs[i] == answer(Present(reqs[i])).resp
  {
    seq(|reqs|, i requires 0 <= i < |reqs| => answer(Present(reqs[i])).resp)
  }

  /** The bytes the daemon's writer puts on standard output for a series of responses. */
  function ResponseFrames(codec: Codec, resps: seq<Json>): seq<Byte>
  {
    if |resps| == 0 then [] else Frame(codec.javaWrite(resps[0])) + ResponseFrames(codec, resps[1..])
  }

  /**
   * When the two codecs agree and no task exits the JVM, the daemon answers
   * every framed request with exactly one response frame, in request order,
   * and stops at the end of its input.
   */
  lemma {:induction false} OneResponsePerRequest(codec: Codec, answer: Node -> Reply, reqs: seq<Json>)
    requires Agree(codec) && AllAnswered(codec, answer, reqs)
    ensures Served(RequestStream(codec, reqs), codec, answer) == (ResponseFrames(codec, Responses(answer, reqs)), InputClosed)
    decreases |reqs|
  {
    if |reqs| == 0 {
      assert JavaHeaderEnd([], 0) == None;
    } else {
      var body := codec.pyDumps(reqs[0]);
      var tail := RequestStream(codec, reqs[1..]);
      assert AllAnswered(codec, answer, reqs[1..]) by {
        forall i | 0 <= i < |reqs[1..]|
          ensures |codec.pyDumps(reqs[1..][i])| <= JavaIntMax && answer(Present(reqs[1..][i])).Respond?
        {
          assert reqs[1..][i] == reqs[i + 1];
        }
      }
      OneResponsePerRequest(codec, answer, reqs[1..]);
      assert Responses(answer, reqs)[1..] == Responses(answer, reqs[1..]);
      ServedFrame(body, tail, codec, answer, Present(reqs[0]), answer(Present(reqs[0])).resp);
    }
  }

  /** The daemon's task as a function of the request. */
  ghost function Answer(env: Env): Node -> Reply
  {
    req => ReplyTo(req, env)
  }

  /**
   * The part of one pass after a header announcing `n` bytes: read the
   * body, parse it and run the job on it.
   */
  method ServeRequest(input: seq<Byte>, k: nat, n: nat, env: Env)
    returns (stop: Option<End>, frame: seq<Byte>, consumed: nat)
    requires 0 < k <= |input| && JavaHeaderValue(input[..k]) == Length(n)
    ensures (stop, frame, consumed) == Pass(input, k, env.codec, Answer(env))
  {
    var body := Take(input[k..], n);
    var req := env.codec.javaRead(body);
    if req.None? {
      return Some(RequestUnreadable), [], 0;
    }
    var reply := HandleRequest(req.value, env);
    stop, frame, consumed := ActOnReply(input, k, n, env.codec, Answer(env), req.value, reply);
  }

  /**
   * What the loop does with the job's reply to a parsed request: stop
   * when the JVM exits, otherwise write the response frame and move past
   * the body.
   */
  method ActOnReply(input: seq<Byte>, k: nat, n: nat, codec: Codec, ghost answer: Node -> Reply, req: Node, reply: Reply)
    returns (stop: Option<End>, frame: seq<Byte>, consumed: nat)
    requires 0 < k <= |input| && JavaHeaderValue(input[..k]) == Length(n)
    requires codec.javaRead(Take(input[k..], n)) == Some(req) && answer(req) == reply
    ensures (stop, frame, consumed) == Pass(input, k, codec, answer)
  {
    if reply.Halt? {
      return Some(JvmExited(reply.code)), [], 0;
    }
    return None, Frame(codec.javaWrite(reply.resp)), k + |Take(input[k..], n)|;
  }

  /**
   * One pass of `main`'s loop on what is left of the input: read a header
   * and a body, parse it, run the job; either the loop stops here, or one
   * response frame is written and `consumed` bytes of input are used up.
   */
  method ServeOne(input: seq<Byte>, env: Env)
    returns (stop: Option<End>, frame: seq<Byte>, consumed: nat)
    ensures stop.Some? ==> Served(input, env.codec, Answer(env)) == ([], stop.value)
    ensures stop.None? ==> 0 < consumed <= |input|
    ensures stop.None? ==> Served(input, env.codec, Answer(env)).0 == frame + Served(input[consumed..], env.codec, Answer(env)).0
    ensures stop.None? ==> Served(input, env.codec, Answer(env)).1 == Served(input[consumed..], env.codec, Answer(env)).1
  {
    var read, k := ReadContentLength(input);
    if read.Eof? {
      return Some(InputClosed), [], 0;
    }
    assert Served(input, env.codec, Answer(env)) == ServedRequest(input, k, env.codec, Answer(env));
    if !read.Length? {
      return Some(HeaderFailed(read)), [], 0;
    }
    stop, frame, consumed := ServeRequest(input, k, read.n, env);
  }

  /**
   * `main`'s loop over the whole input, with `answer` standing for the job
   * each request is handed to (`HandleRequest` computes `Answer(env)`).
   */
  method Serve(input: seq<Byte>, env: Env) returns (out: seq<Byte>, end: End)
    ensures (out, end) == Served(input, env.codec, Answer(env))
  {
    out := [];
    var stdin := input;
    while true
      invariant Served(input, env.codec, Answer(env)).0 == out + Served(stdin, env.codec, Answer(env)).0
      invariant Served(input, env.codec, Answer(env)).1 == Served(stdin, env.codec, Answer(env)).1
      decreases |stdin|
    {
      var stop, frame, consumed := ServeOne(stdin, env);
      if stop.Some? {
        assert out + Served(stdin, env.codec, Answer(env)).0 == out + [];
        assert out + [] == out;
        return out, stop.value;
      }
      assert out + (frame + Served(stdin[consumed..], env.codec, Answer(env)).0) ==
             (out + frame) + Served(stdin[consumed..], env.codec, Answer(env)).0;
      out := out + frame;
      stdin := stdin[consumed..];
    }
  }
}
