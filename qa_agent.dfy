// The question-answering agent's own state (src/IR_Ensemble/QA_Assistant/base.py):
// the mirrored message history and its plain-text form, the logical-thread
// reset, the caps on the tool calls read from the model's answers, and the
// status update that moves finished questions out of the structured answer.
// The model's replies are inputs; `json.loads` and `json.dumps` are
// parameters (`loads` is None where it raises); the context file is the
// sequence of the question items appended to it.
module QaAgent {
  import opened Wrappers
  import opened Strings
  import opened Json
  import opened PyJson
  import opened PyText

  /** `QAStatus`. */
  datatype QaStatus = NoAnswer | Partial | Finished

  /** One entry of the history: `{"role": role, "content": content}`. */
  datatype Message = Message(role: string, content: string)

  /** The `<|role|>\ncontent\n` form of one message. */
  function Piece(m: Message): string
  {
    "<|" + m.role + "|>\n" + m.content + "\n"
  }

  /** `_serialise_history` on a history: the pieces of its messages, in order. */
  function Serialised(h: seq<Message>): string
    decreases |h|
  {
    if |h| == 0 then "" else Serialised(h[..|h| - 1]) + Piece(h[|h| - 1])
  }

  /** Recording a message extends the serialised history by exactly its piece. */
  lemma SerialisedAppend(h: seq<Message>, m: Message)
    ensures Serialised(h + [m]) == Serialised(h) + Piece(m)
  {
    assert (h + [m])[..|h|] == h;
  }

  /** Each message takes its role, its content and six characters of markup; an empty history serialises to nothing. */
  lemma {:induction false} SerialisedLength(h: seq<Message>)
    ensures |Serialised(h)| == 6 * |h| + TotalLength(h)
    ensures h == [] <==> Serialised(h) == ""
    decreases |h|
  {
    if |h| > 0 {
      SerialisedLength(h[..|h| - 1]);
    }
  }

  /** The characters of all roles and contents. */
  function TotalLength(h: seq<Message>): nat
    decreases |h|
  {
    if |h| == 0 then 0 else TotalLength(h[..|h| - 1]) + |h[|h| - 1].role| + |h[|h| - 1].content|
  }

  // ---------------------------------------------------------------------
  // Tool-call caps in get_info

  /** `v[:n]` on a decoded value: lists and strings slice, anything else raises. */
  function Head(v: Json, n: nat): (r: Option<Json>)
    ensures r.Some? <==> v.JArray? || v.JString?
    ensures r.Some? && v.JArray? ==> r.value.JArray? && r.value.items == Take(v.items, n)
    ensures r.Some? && v.JString? ==> r.value.JString? && r.value.s == Take(v.s, n)
  {
    match v
    case JArray(items) => Some(JArray(Take(items, n)))
    case JString(s) => Some(JString(Take(s, n)))
    case _ => None
  }

  /** `call["queries"]`, `call["master_query"]`: the arguments of one search. */
  function SearchArgs(call: Json): Result<(Json, Json), PyError>
  {
    match Index(call, "queries")
    case Err(e) => Err(e)
    case Ok(q) =>
      match Index(call, "master_query")
      case Err(e) => Err(e)
      case Ok(m) => Ok((q, m))
  }

  /**
   * The searches `get_info` dispatches, read from the model's reply: the
   * first two entries of `searches` inside the `answer` tag. None when any
   * step raises, and the fallback text is sent instead.
   */
  function SearchCalls(reply: string, loads: string -> Option<Json>): Option<seq<(Json, Json)>>
  {
    match ExtractTag(reply, "answer")
    case None => None
    case Some(body) =>
      match loads(body)
      case None => None
      case Some(parsed) =>
        match Index(parsed, "searches")
        case Err(_) => None
        case Ok(searches) =>
          match Head(searches, 2)
          case None => None
          case Some(capped) =>
            match Iterate(capped)
            case Err(_) => None
            case Ok(calls) =>
              match Collect(calls, SearchArgs)
              case Err(_) => None
              case Ok(args) => Some(args)
  }

  /** At most two searches are dispatched, each with the arguments of one listed call, in order. */
  lemma SearchCallsCapped(reply: string, loads: string -> Option<Json>)
    ensures SearchCalls(reply, loads).Some? ==> |SearchCalls(reply, loads).value| <= 2
    ensures SearchCalls(reply, loads).Some? ==>
              var parsed := loads(ExtractTag(reply, "answer").value).value;
              var listed := Index(parsed, "searches").value;
              listed.JArray? ==>
                forall i | 0 <= i < |SearchCalls(reply, loads).value| ::
                  i < |listed.items| && Ok(SearchCalls(reply, loads).value[i]) == SearchArgs(listed.items[i])
  {
    match ExtractTag(reply, "answer")
    case None =>
    case Some(body) =>
      match loads(body)
      case None =>
      case Some(parsed) =>
        match Index(parsed, "searches")
        case Err(_) =>
        case Ok(searches) =>
          match Head(searches, 2)
          case None =>
          case Some(capped) =>
            if searches.JString? {
              assert |Chars(capped.s)| <= 2;
            }
  }

  /**
   * The segment ids `get_info` asks for: the first six entries of
   * `selections` inside the `answer` tag, or `["dummy_id"]` when that is
   * empty. None when any step raises.
   */
  function Selections(reply: string, loads: string -> Option<Json>): Option<Json>
  {
    match ExtractTag(reply, "answer")
    case None => None
    case Some(body) =>
      match loads(body)
      case None => None
      case Some(parsed) =>
        match Index(parsed, "selections")
        case Err(_) => None
        case Ok(selections) =>
          match Head(selections, 6)
          case None => None
          case Some(capped) => if Truthy(capped) then Some(capped) else Some(JArray([JString("dummy_id")]))
  }

  /**
   * The selection asked for is never empty: it is at most six of the listed
   * ids, in order, or the single placeholder id when none is listed.
   */
  lemma SelectionsCapped(reply: string, loads: string -> Option<Json>)
    ensures Selections(reply, loads).Some? ==> Truthy(Selections(reply, loads).value)
    ensures Selections(reply, loads).Some? && Selections(reply, loads).value.JArray? ==>
              var ids := Selections(reply, loads).value.items;
              var listed := Index(loads(ExtractTag(reply, "answer").value).value, "selections").value;
              1 <= |ids| <= 6 &&
              (ids == [JString("dummy_id")] || (listed.JArray? && ids <= listed.items))
  {
  }

  // ---------------------------------------------------------------------
  // _update_status

  /** `q.get("finished") is True` for a question item that is a dict. */
  predicate IsFinished(q: Json)
    requires q.JObject?
  {
    Lookup(q.members, "finished") == Some(JBool(true))
  }

  /** The finished and the remaining question items, each in their order. */
  datatype Split = Split(finished: seq<Json>, remaining: seq<Json>)

  /** The two comprehensions; None when an item is not a dict (it has no `get`). */
  function SplitQuestions(qs: seq<Json>): Option<Split>
    decreases |qs|
  {
    if |qs| == 0 then Some(Split([], []))
    else
      var q := qs[|qs| - 1];
      var init := qs[..|qs| - 1];
      match SplitQuestions(init)
      case None => None
      case Some(sp) =>
        if !q.JObject? then None
        else if IsFinished(q) then Some(Split(sp.finished + [q], sp.remaining))
        else Some(Split(sp.finished, sp.remaining + [q]))
  }

  /**
   * The split fails exactly when some item is not a dict; otherwise every
   * finished item is finished and every remaining one is not.
   */
  lemma {:induction false} SplitSound(qs: seq<Json>)
    ensures SplitQuestions(qs).None? <==> exists i | 0 <= i < |qs| :: !qs[i].JObject?
    ensures SplitQuestions(qs).Some? ==> forall q | q in SplitQuestions(qs).value.finished :: q.JObject? && IsFinished(q)
    ensures SplitQuestions(qs).Some? ==> forall q | q in SplitQuestions(qs).value.remaining :: q.JObject? && !IsFinished(q)
    decreases |qs|
  {
    if |qs| > 0 {
      var init, q := qs[..|qs| - 1], qs[|qs| - 1];
      SplitSound(init);
      assert forall i | 0 <= i < |init| :: init[i] == qs[i];
    }
  }

  /** Every item lands in exactly one of the two lists. */
  lemma {:induction false} SplitPermutes(qs: seq<Json>)
    requires SplitQuestions(qs).Some?
    ensures multiset(SplitQuestions(qs).value.finished) + multiset(SplitQuestions(qs).value.remaining) == multiset(qs)
    decreases |qs|
  {
    if |qs| > 0 {
      var init, q := qs[..|qs| - 1], qs[|qs| - 1];
      SplitPermutes(init);
      var sp := SplitQuestions(init).value;
      assert qs == init + [q];
      assert multiset(qs) == multiset(init) + multiset{q};
      if IsFinished(q) {
        assert SplitQuestions(qs).value == Split(sp.finished + [q], sp.remaining);
        assert multiset(sp.finished + [q]) == multiset(sp.finished) + multiset{q};
      } else {
        assert SplitQuestions(qs).value == Split(sp.finished, sp.remaining + [q]);
        assert multiset(sp.remaining + [q]) == multiset(sp.remaining) + multiset{q};
      }
    }
  }

  /**
   * `payload[key] = v` on a dict: the key keeps its place and takes the new
   * value, or is added at the end.
   */
  function SetKey(members: seq<(string, Json)>, key: string, v: Json): (r: seq<(string, Json)>)
    ensures Lookup(r, key) == Some(v)
    ensures forall k | k != key :: Lookup(r, k) == Lookup(members, k)
    ensures Keys(r) == if Lookup(members, key).Some? then Keys(members) else Keys(members) + [key]
  {
    if Lookup(members, key).Some? then Replace(members, key, v) else members + [(key, v)]
  }

  /** Every binding of `key` rebound to `v`. */
  function Replace(members: seq<(string, Json)>, key: string, v: Json): (r: seq<(string, Json)>)
    requires Lookup(members, key).Some?
    ensures Lookup(r, key) == Some(v)
    ensures forall k | k != key :: Lookup(r, k) == Lookup(members, k)
    ensures Keys(r) == Keys(members)
    decreases |members|
  {
    var init := members[..|members| - 1];
    var last := members[|members| - 1];
    if last.0 == key then
      var pre := if Lookup(init, key).Some? then Replace(init, key, v) else init;
      ReplaceLast(members, key, v, pre, (key, v));
      pre + [(key, v)]
    else
      var pre := Replace(init, key, v);
      ReplaceLast(members, key, v, pre, last);
      pre + [last]
  }

  /** One step of `Replace`: the rebound prefix followed by the last binding, itself rebound. */
  lemma ReplaceLast(members: seq<(string, Json)>, key: string, v: Json, pre: seq<(string, Json)>, kv: (string, Json))
    requires |members| > 0 && kv.0 == members[|members| - 1].0
    requires kv.1 == if kv.0 == key then v else members[|members| - 1].1
    requires kv.0 != key ==> Lookup(pre, key) == Some(v)
    requires forall k | k != key :: Lookup(pre, k) == Lookup(members[..|members| - 1], k)
    requires Keys(pre) == Keys(members[..|members| - 1])
    ensures Lookup(pre + [kv], key) == Some(v)
    ensures forall k | k != key :: Lookup(pre + [kv], k) == Lookup(members, k)
    ensures Keys(pre + [kv]) == Keys(members)
  {
    var init, last := members[..|members| - 1], members[|members| - 1];
    assert members == init + [last];
    forall k ensures k != key ==> Lookup(pre + [kv], k) == Lookup(init + [last], k) {
      LookupSnoc(init, last.0, last.1, k);
      LookupSnoc(pre, kv.0, kv.1, k);
    }
    LookupSnoc(pre, kv.0, kv.1, key);
    KeysSnoc(init, last);
    KeysSnoc(pre, kv);
  }

  /** `self.status` after a pass in which the split was made. */
  function NextStatus(prev: QaStatus, sp: Split): QaStatus
  {
    if sp.remaining == [] then Finished
    else if sp.finished != [] then Partial
    else if prev == NoAnswer then NoAnswer
    else Partial
  }

  /**
   * `json.loads(answer)` and `payload.get("questions", [])`, iterated: the
   * payload's members and the question items; None where a step raises.
   */
  function Questions(answer: string, loads: string -> Option<Json>): (r: Option<(seq<(string, Json)>, seq<Json>)>)
    ensures r.Some? ==> loads(answer).Some? && loads(answer).value == JObject(r.value.0)
  {
    match loads(answer)
    case None => None
    case Some(payload) =>
      match GetOr(payload, "questions", JArray([]))
      case Err(_) => None
      case Ok(questions) =>
        match Iterate(questions)
        case Err(_) => None
        case Ok(items) => Some((payload.members, items))
  }

  /** What one `_update_status` pass leaves: the status, the answer, and the items appended to the context file. */
  datatype Outcome = Outcome(status: QaStatus, fullAnswer: Option<string>, persisted: seq<Json>)

  /** The non-summary branch of `_update_status`; an exception leaves PARTIAL and the answer unchanged. */
  function StatusPass(prev: QaStatus, answer: Option<string>, loads: string -> Option<Json>, dumps: Json -> string): Outcome
  {
    if answer.None? || answer.value == "" then Outcome(NoAnswer, answer, [])
    else
      match Questions(answer.value, loads)
      case None => Outcome(Partial, answer, [])
      case Some((members, items)) =>
        match SplitQuestions(items)
        case None => Outcome(Partial, answer, [])
        case Some(sp) =>
          Outcome(NextStatus(prev, sp), Some(dumps(JObject(SetKey(members, "questions", JArray(sp.remaining))))), sp.finished)
  }

  /** The answer's question items could be read and split. */
  predicate Readable(answer: Option<string>, loads: string -> Option<Json>)
  {
    answer.Some? && answer.value != "" && Questions(answer.value, loads).Some? &&
    SplitQuestions(Questions(answer.value, loads).value.1).Some?
  }

  /**
   * The status rules: FINISHED exactly when the answer could be read and all
   * its questions were finished; NO_ANSWER only for an empty answer or when
   * nothing was finished and the status was NO_ANSWER before; PARTIAL, with
   * the answer untouched, when it could not be read.
   */
  lemma StatusRules(prev: QaStatus, answer: Option<string>, loads: string -> Option<Json>, dumps: Json -> string)
    ensures var o := StatusPass(prev, answer, loads, dumps);
            o.status == NoAnswer ==> answer.None? || answer.value == "" || (prev == NoAnswer && o.persisted == [])
    ensures var o := StatusPass(prev, answer, loads, dumps);
            o.status == Finished <==>
              Readable(answer, loads) && SplitQuestions(Questions(answer.value, loads).value.1).value.remaining == []
    ensures var o := StatusPass(prev, answer, loads, dumps);
            answer.Some? && answer.value != "" && !Readable(answer, loads) ==>
              o == Outcome(Partial, answer, [])
  {
    if Readable(answer, loads) {
      PassOfReadable(prev, answer, loads, dumps);
    } else if answer.Some? && answer.value != "" {
      PassOfUnreadable(prev, answer, loads, dumps);
    }
  }

  /** Only finished question items are persisted. */
  lemma PersistedFinished(prev: QaStatus, answer: Option<string>, loads: string -> Option<Json>, dumps: Json -> string)
    ensures forall q | q in StatusPass(prev, answer, loads, dumps).persisted :: q.JObject? && IsFinished(q)
  {
    if Readable(answer, loads) {
      PassOfReadable(prev, answer, loads, dumps);
      SplitSound(Questions(answer.value, loads).value.1);
    } else if answer.Some? && answer.value != "" {
      PassOfUnreadable(prev, answer, loads, dumps);
    }
  }

  /**
   * The rewritten answer keeps only the unfinished questions: its payload
   * binds `questions` to the remaining items, keeps every other key, and the
   * persisted and remaining items are together the answer's items.
   */
  lemma RewrittenAnswer(prev: QaStatus, answer: Option<string>, loads: string -> Option<Json>, dumps: Json -> string)
    requires Readable(answer, loads)
    ensures var o := StatusPass(prev, answer, loads, dumps);
            var (members, items) := Questions(answer.value, loads).value;
            var sp := SplitQuestions(items).value;
            exists m: seq<(string, Json)> ::
              o.fullAnswer == Some(dumps(JObject(m))) &&
              Lookup(m, "questions") == Some(JArray(sp.remaining)) &&
              (forall k | k != "questions" :: Lookup(m, k) == Lookup(members, k)) &&
              multiset(o.persisted) + multiset(sp.remaining) == multiset(items)
  {
    var o := StatusPass(prev, answer, loads, dumps);
    var (members, items) := Questions(answer.value, loads).value;
    var sp := SplitQuestions(items).value;
    SplitPermutes(items);
    var m := SetKey(members, "questions", JArray(sp.remaining));
    PassOfReadable(prev, answer, loads, dumps);
    assert Lookup(m, "questions") == Some(JArray(sp.remaining));
    assert forall k | k != "questions" :: Lookup(m, k) == Lookup(members, k);
    assert multiset(o.persisted) + multiset(sp.remaining) == multiset(items);
  }

  /**
   * Read back, a rewritten answer has no finished question left: a second
   * pass persists nothing and finishes exactly when the first did.
   */
  lemma SecondPassPersistsNothing(prev: QaStatus, answer: Option<string>, loads: string -> Option<Json>, dumps: Json -> string)
    requires Readable(answer, loads) && loads("") == None
    requires var (members, items) := Questions(answer.value, loads).value;
             var m := SetKey(members, "questions", JArray(SplitQuestions(items).value.remaining));
             loads(dumps(JObject(m))) == Some(JObject(m))
    ensures var o := StatusPass(prev, answer, loads, dumps);
            var o2 := StatusPass(o.status, o.fullAnswer, loads, dumps);
            o2.persisted == [] && (o2.status == Finished <==> o.status == Finished)
  {
    var read := Questions(answer.value, loads).value;
    var sp := SplitQuestions(read.1).value;
    var m := SetKey(read.0, "questions", JArray(sp.remaining));
    var text := dumps(JObject(m));
    PassOfReadable(prev, answer, loads, dumps);
    assert StatusPass(prev, answer, loads, dumps) == Outcome(NextStatus(prev, sp), Some(text), sp.finished);
    SplitSound(read.1);
    RewrittenPass(NextStatus(prev, sp), text, m, sp.remaining, loads, dumps);
  }

  /** A pass over a rewritten answer, whose question items are all unfinished dicts. */
  lemma RewrittenPass(prev: QaStatus, text: string, m: seq<(string, Json)>, items: seq<Json>,
                      loads: string -> Option<Json>, dumps: Json -> string)
    requires loads("") == None && loads(text) == Some(JObject(m)) && Lookup(m, "questions") == Some(JArray(items))
    requires forall q | q in items :: q.JObject? && !IsFinished(q)
    ensures var o := StatusPass(prev, Some(text), loads, dumps);
            o.persisted == [] && (o.status == Finished <==> items == [])
  {
    assert text != "";
    UnfinishedPass(prev, text, m, items, loads, dumps);
  }

  /** A pass over a payload whose question items are all unfinished dicts finishes nothing. */
  lemma UnfinishedPass(prev: QaStatus, text: string, m: seq<(string, Json)>, items: seq<Json>,
                       loads: string -> Option<Json>, dumps: Json -> string)
    requires text != "" && loads(text) == Some(JObject(m)) && Lookup(m, "questions") == Some(JArray(items))
    requires forall q | q in items :: q.JObject? && !IsFinished(q)
    ensures StatusPass(prev, Some(text), loads, dumps) ==
              Outcome(NextStatus(prev, Split([], items)), Some(dumps(JObject(SetKey(m, "questions", JArray(items))))), [])
  {
    ReadBack(text, m, items, loads);
    NothingFinished(items);
  }

  /** A readable answer takes the last branch of the pass. */
  lemma PassOfReadable(prev: QaStatus, answer: Option<string>, loads: string -> Option<Json>, dumps: Json -> string)
    requires Readable(answer, loads)
    ensures var (members, items) := Questions(answer.value, loads).value;
            var sp := SplitQuestions(items).value;
            StatusPass(prev, answer, loads, dumps) ==
              Outcome(NextStatus(prev, sp), Some(dumps(JObject(SetKey(members, "questions", JArray(sp.remaining))))), sp.finished)
  {
    var read := Questions(answer.value, loads).value;
    var sp := SplitQuestions(read.1).value;
    assert Questions(answer.value, loads) == Some((read.0, read.1));
    assert SplitQuestions(read.1) == Some(sp);
  }

  /** An answer that cannot be read or split leaves PARTIAL and changes nothing. */
  lemma PassOfUnreadable(prev: QaStatus, answer: Option<string>, loads: string -> Option<Json>, dumps: Json -> string)
    requires answer.Some? && answer.value != "" && !Readable(answer, loads)
    ensures StatusPass(prev, answer, loads, dumps) == Outcome(Partial, answer, [])
  {
  }

  /** A payload binding `questions` to a list yields that list's items. */
  lemma ReadBack(text: string, m: seq<(string, Json)>, items: seq<Json>, loads: string -> Option<Json>)
    requires loads(text) == Some(JObject(m)) && Lookup(m, "questions") == Some(JArray(items))
    ensures Questions(text, loads) == Some((m, items))
  {
  }

  /** Items that are all unfinished dicts split into no finished items and themselves. */
  lemma {:induction false} NothingFinished(qs: seq<Json>)
    requires forall q | q in qs :: q.JObject? && !IsFinished(q)
    ensures SplitQuestions(qs) == Some(Split([], qs))
    decreases |qs|
  {
    if |qs| > 0 {
      var init := qs[..|qs| - 1];
      assert forall q | q in init :: q in qs;
      NothingFinished(init);
      assert qs[|qs| - 1] in qs;
      assert init + [qs[|qs| - 1]] == qs;
    }
  }

  // ---------------------------------------------------------------------
  // The agent

  class BaseAgent {
    var history: seq<Message>
    var status: QaStatus
    var fullAnswer: Option<string>
    var summary: Option<string>
    var prevId: Option<string>
    /** The question items appended to the context file, in order. */
    var context: seq<Json>

    constructor ()
      ensures history == [] && status == NoAnswer && fullAnswer.None? && summary.None? && prevId.None? && context == []
    {
      history := [];
      status := NoAnswer;
      fullAnswer := None;
      summary := None;
      prevId := None;
      context := [];
    }

    /** `_serialise_history`. */
    function SerialiseHistory(): string
      reads this
    {
      Serialised(history)
    }

    /** `_record`: the message is mirrored at the end of the history. */
    method Record(role: string, content: string)
      modifies this
      ensures history == old(history) + [Message(role, content)]
      ensures SerialiseHistory() == old(SerialiseHistory()) + Piece(Message(role, content))
      ensures status == old(status) && fullAnswer == old(fullAnswer) && summary == old(summary)
      ensures prevId == old(prevId) && context == old(context)
    {
      SerialisedAppend(history, Message(role, content));
      history := history + [Message(role, content)];
    }

    /** `reset_logical_thread`: the history is cleared and the response chain cut. */
    method ResetLogicalThread()
      modifies this
      ensures history == [] && prevId.None? && SerialiseHistory() == ""
      ensures status == old(status) && fullAnswer == old(fullAnswer) && summary == old(summary)
      ensures context == old(context)
    {
      history := [];
      prevId := None;
    }

    /**
     * `_update_status(is_summary, content)`: the summary branch sets only the
     * summary; the other branch applies one status pass to the answer and
     * appends the finished items to the context file.
     */
    method UpdateStatus(isSummary: bool, content: Option<string>, loads: string -> Option<Json>, dumps: Json -> string)
      modifies this
      ensures isSummary ==>
                summary == (if content.None? || content.value == "" then Some("") else ExtractTag(content.value, "summary")) &&
                status == old(status) && fullAnswer == old(fullAnswer) && context == old(context)
      ensures !isSummary ==>
                var o := StatusPass(old(status), old(fullAnswer), loads, dumps);
                status == o.status && fullAnswer == o.fullAnswer && context == old(context) + o.persisted &&
                summary == old(summary)
      ensures history == old(history) && prevId == old(prevId)
    {
      if isSummary {
        summary := if content.Some? && content.value != "" then ExtractTag(content.value, "summary") else Some("");
        return;
      }
      var o := Pass(status, fullAnswer, loads, dumps);
      var written := Persist(context, o.persisted);
      context := written;
      status := o.status;
      fullAnswer := o.fullAnswer;
    }
  }

  /** The loop writing each finished item as one more line of the context file. */
  method Persist(context: seq<Json>, finished: seq<Json>) returns (written: seq<Json>)
    ensures written == context + finished
  {
    written := context;
    var i := 0;
    while i < |finished|
      invariant i <= |finished|
      invariant written == context + finished[..i]
    {
      assert finished[..i + 1] == finished[..i] + [finished[i]];
      written := written + [finished[i]];
      i := i + 1;
    }
    assert finished[..i] == finished;
  }

  /** The steps of one status pass, each exception ending it with PARTIAL. */
  method Pass(prev: QaStatus, answer: Option<string>, loads: string -> Option<Json>, dumps: Json -> string) returns (o: Outcome)
    ensures o == StatusPass(prev, answer, loads, dumps)
  {
    if answer.None? || answer.value == "" {
      return Outcome(NoAnswer, answer, []);
    }
    var payload := loads(answer.value);
    if payload.None? {
      return Outcome(Partial, answer, []);
    }
    var questions := GetOr(payload.value, "questions", JArray([]));
    if questions.Err? {
      return Outcome(Partial, answer, []);
    }
    var items := Iterate(questions.value);
    if items.Err? {
      return Outcome(Partial, answer, []);
    }
    var split := SplitQuestions(items.value);
    if split.None? {
      return Outcome(Partial, answer, []);
    }
    var finished, remaining := split.value.finished, split.value.remaining;
    var next: QaStatus;
    if remaining == [] {
      next := Finished;
    } else if finished != [] {
      next := Partial;
    } else {
      next := if prev == NoAnswer then NoAnswer else Partial;
    }
    return Outcome(next, Some(dumps(JObject(SetKey(payload.value.members, "questions", JArray(remaining))))), finished);
  }
}
