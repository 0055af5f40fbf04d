// The question-set generator's batching: `process_group` and
// `process_groups` send the questions to the model in consecutive batches
// and concatenate what comes back, stopping at the first error result;
// `generate` chunks the template's groups, runs `process_groups` on each
// chunk and merges the results in chunk order. `ask` stands for one
// `_call_openai` on the prompt built from a batch; `describe` is `str` of an
// exception.
module QuestionSets {
  import opened Wrappers
  import opened Strings
  import opened Json
  import opened PyJson
  import QuestionExtract

  // ---------------------------------------------------------------------
  // Batches

  /**
   * `[qs[i:i+size] for i in range(0, len(qs), size)]` for a step that is
   * not 0: consecutive slices of `size` items, the last possibly shorter;
   * a negative step gives no slice at all.
   */
  function Batches<T>(qs: seq<T>, size: int): seq<seq<T>>
    requires size != 0
    decreases |qs|
  {
    if size < 0 || |qs| == 0 then []
    else if |qs| <= size then [qs]
    else [qs[..size]] + Batches(qs[size..], size)
  }

  lemma ConcatCons<T>(x: seq<T>, xs: seq<seq<T>>)
    ensures Concat([x] + xs) == x + Concat(xs)
  {
    ConcatAppend([x], xs);
    assert [x][..0] == [];
  }

  /**
   * The batches cover every question once, in order: they concatenate to
   * the questions, none is empty, none is longer than `size`, and all but
   * the last hold exactly `size`.
   */
  lemma {:induction false} BatchesCover<T>(qs: seq<T>, size: int)
    requires size > 0
    ensures Concat(Batches(qs, size)) == qs
    ensures forall i | 0 <= i < |Batches(qs, size)| :: 0 < |Batches(qs, size)[i]| <= size
    ensures forall i | 0 <= i < |Batches(qs, size)| - 1 :: |Batches(qs, size)[i]| == size
    decreases |qs|
  {
    if |qs| > size {
      var rest := Batches(qs[size..], size);
      BatchesCover(qs[size..], size);
      ConcatCons(qs[..size], rest);
      assert qs[..size] + qs[size..] == qs;
      assert forall i | 1 <= i < |rest| + 1 :: ([qs[..size]] + rest)[i] == rest[i - 1];
    } else if |qs| > 0 {
      ConcatCons(qs, []);
    }
  }

  // ---------------------------------------------------------------------
  // process_group and process_groups

  /** A batch loop's state: still collecting, or stopped with the result to return. */
  datatype Progress = Going(answered: seq<Json>, unanswered: seq<Json>) | Stopped(result: Json)

  /** `lst.extend(result.get(key, []))`: what the list is extended with. */
  function Extension(result: Json, key: string): Result<seq<Json>, PyError>
  {
    match GetOr(result, key, JArray([]))
    case Err(e) => Err(e)
    case Ok(v) => Iterate(v)
  }

  /**
   * One call's result taken in, as the body of the batch loop does: a
   * result with an `error` key stops the loop with that result; otherwise
   * its `answered` and `unanswered` lists are appended.
   */
  function Absorb(answered: seq<Json>, unanswered: seq<Json>, result: Json): Result<Progress, PyError>
  {
    match In("error", result)
    case Err(e) => Err(e)
    case Ok(stop) =>
      if stop then Ok(Stopped(result))
      else
        match Extension(result, "answered")
        case Err(e) => Err(e)
        case Ok(a) =>
          match Extension(result, "unanswered")
          case Err(e) => Err(e)
          case Ok(u) => Ok(Going(answered + a, unanswered + u))
  }

  /** The batch loop over `batches`, `ask` answering each in turn. */
  function Progressed(batches: seq<seq<Json>>, ask: seq<Json> -> Json): Result<Progress, PyError>
    decreases |batches|
  {
    if |batches| == 0 then Ok(Going([], []))
    else
      match Progressed(batches[..|batches| - 1], ask)
      case Err(e) => Err(e)
      case Ok(p) =>
        if p.Stopped? then Ok(p)
        else Absorb(p.answered, p.unanswered, ask(batches[|batches| - 1]))
  }

  /** What the batch loop returns: the stopping result, or both lists. */
  function Finished(p: Progress): Json
  {
    match p
    case Stopped(result) => result
    case Going(a, u) => JObject([("answered", JArray(a)), ("unanswered", JArray(u))])
  }

  /** `process_group(questions)`; a batch size of 0 is `range`'s ValueError. */
  function Grouped(questions: seq<Json>, batchSize: int, ask: seq<Json> -> Json): Result<Json, PyError>
  {
    if batchSize == 0 then Err(ValueError)
    else
      match Progressed(Batches(questions, batchSize), ask)
      case Err(e) => Err(e)
      case Ok(p) => Ok(Finished(p))
  }

  /** The questions `process_groups` gathers: each group's `questions` (none when absent), in order. */
  function Gathered(groups: seq<Json>): Result<seq<Json>, PyError>
    decreases |groups|
  {
    if |groups| == 0 then Ok([])
    else
      match Gathered(groups[..|groups| - 1])
      case Err(e) => Err(e)
      case Ok(qs) =>
        match Extension(groups[|groups| - 1], "questions")
        case Err(e) => Err(e)
        case Ok(more) => Ok(qs + more)
  }

  /** `process_groups(groups)`: the gathered questions, batched as `process_group` does. */
  function GroupsProcessed(groups: seq<Json>, batchSize: int, ask: seq<Json> -> Json): Result<Json, PyError>
  {
    match Gathered(groups)
    case Err(e) => Err(e)
    case Ok(qs) => Grouped(qs, batchSize, ask)
  }

  /** `ask` is `_call_openai` on the model's reply to each batch. */
  ghost predicate Asks(ask: seq<Json> -> Json, llm: seq<Json> -> QuestionExtract.Reply,
                       loads: string -> Option<Json>, why: string -> string)
  {
    forall b {:trigger QuestionExtract.Answer(llm(b), loads, why)} :: ask(b) == QuestionExtract.Answer(llm(b), loads, why)
  }

  lemma ProgressedSnoc(done: seq<seq<Json>>, batch: seq<Json>, ask: seq<Json> -> Json)
    ensures Progressed(done + [batch], ask) ==
              match Progressed(done, ask)
              case Err(e) => Err(e)
              case Ok(p) => if p.Stopped? then Ok(p) else Absorb(p.answered, p.unanswered, ask(batch))
  {
    assert (done + [batch])[..|done|] == done;
  }

  /** Once the loop has stopped or raised, later batches change nothing. */
  lemma {:induction false} ProgressedSettled(done: seq<seq<Json>>, rest: seq<seq<Json>>, ask: seq<Json> -> Json)
    requires Progressed(done, ask).Err? || Progressed(done, ask).value.Stopped?
    ensures Progressed(done + rest, ask) == Progressed(done, ask)
    decreases |rest|
  {
    if |rest| > 0 {
      var init := rest[..|rest| - 1];
      ProgressedSettled(done, init, ask);
      assert done + rest == (done + init) + [rest[|rest| - 1]];
      ProgressedSnoc(done + init, rest[|rest| - 1], ask);
    } else {
      assert done + rest == done;
    }
  }

  /**
   * The loop of `process_group`, which `process_groups` repeats after
   * gathering: batch `questions[i:i+batchSize]` for `i` in steps of
   * `batchSize`, one call each, returning the first result with an `error`.
   */
  method ProcessGroup(questions: seq<Json>, batchSize: int, llm: seq<Json> -> QuestionExtract.Reply,
                      loads: string -> Option<Json>, why: string -> string, ghost ask: seq<Json> -> Json)
    returns (r: Result<Json, PyError>)
    requires Asks(ask, llm, loads, why)
    ensures r == Grouped(questions, batchSize, ask)
  {
    if batchSize == 0 {
      return Err(ValueError);
    }
    var answered: seq<Json> := [];
    var unanswered: seq<Json> := [];
    if batchSize < 0 {
      // `range(0, len(questions), batchSize)` is empty
      return Ok(Finished(Going(answered, unanswered)));
    }
    ghost var done: seq<seq<Json>> := [];
    var i := 0;
    while i < |questions|
      invariant 0 <= i
      invariant Batches(questions, batchSize) == done + Batches(questions[Min(i, |questions|)..], batchSize)
      invariant Progressed(done, ask) == Ok(Going(answered, unanswered))
      decreases |questions| - i
    {
      var batch := questions[i..Min(i + batchSize, |questions|)];
      ghost var rest := Batches(questions[Min(i + batchSize, |questions|)..], batchSize);
      BatchesStep(questions, batchSize, i, done);
      var next := AskStep(batch, answered, unanswered, llm, loads, why, ask);
      ProgressedSnoc(done, batch, ask);
      if next.Err? {
        ProgressedSettled(done + [batch], rest, ask);
        return Err(next.error);
      }
      if next.value.Stopped? {
        ProgressedSettled(done + [batch], rest, ask);
        return Ok(next.value.result);
      }
      answered, unanswered := next.value.answered, next.value.unanswered;
      done := done + [batch];
      i := i + batchSize;
    }
    assert questions[Min(i, |questions|)..] == [];
    assert done + [] == done;
    return Ok(Finished(Going(answered, unanswered)));
  }

  /** The batches from `i` on are the batch at `i` and the batches after it. */
  lemma BatchesNext(questions: seq<Json>, size: int, i: nat)
    requires size > 0 && i < |questions|
    ensures Batches(questions[i..], size) ==
              [questions[i..Min(i + size, |questions|)]] + Batches(questions[Min(i + size, |questions|)..], size)
  {
    if i + size < |questions| {
      assert questions[i..][..size] == questions[i..i + size];
      assert questions[i..][size..] == questions[i + size..];
    } else {
      assert questions[i..Min(i + size, |questions|)] == questions[i..];
      assert questions[Min(i + size, |questions|)..] == [];
    }
  }

  /** The batch loop's bookkeeping: the batches are those done, the one at `i`, and the rest. */
  lemma BatchesStep(questions: seq<Json>, size: int, i: nat, done: seq<seq<Json>>)
    requires size > 0 && i < |questions|
    requires Batches(questions, size) == done + Batches(questions[Min(i, |questions|)..], size)
    ensures Batches(questions, size) ==
              (done + [questions[i..Min(i + size, |questions|)]]) + Batches(questions[Min(i + size, |questions|)..], size)
  {
    BatchesNext(questions, size, i);
  }

  /** One pass of the batch loop: the call on `batch`, then its result taken in. */
  method AskStep(batch: seq<Json>, answered: seq<Json>, unanswered: seq<Json>, llm: seq<Json> -> QuestionExtract.Reply,
                 loads: string -> Option<Json>, why: string -> string, ghost ask: seq<Json> -> Json)
    returns (next: Result<Progress, PyError>)
    requires Asks(ask, llm, loads, why)
    ensures next == Absorb(answered, unanswered, ask(batch))
  {
    var result := QuestionExtract.CallOpenAI(llm(batch), loads, why);
    assert ask(batch) == result;
    next := AbsorbStep(answered, unanswered, result);
  }

  /** The body of the batch loop on one call's result: the `error` test and the two `extend`s. */
  method AbsorbStep(answered: seq<Json>, unanswered: seq<Json>, result: Json) returns (next: Result<Progress, PyError>)
    requires result.JObject?
    ensures next == Absorb(answered, unanswered, result)
  {
    if Lookup(result.members, "error").Some? {
      return Ok(Stopped(result));
    }
    var more := Extension(result, "answered");
    if more.Err? {
      return Err(more.error);
    }
    var moreUnanswered := Extension(result, "unanswered");
    if moreUnanswered.Err? {
      return Err(moreUnanswered.error);
    }
    return Ok(Going(answered + more.value, unanswered + moreUnanswered.value));
  }

  lemma GatheredSnoc(groups: seq<Json>, k: nat)
    requires k < |groups|
    ensures Gathered(groups[..k + 1]) ==
              match Gathered(groups[..k])
              case Err(e) => Err(e)
              case Ok(qs) =>
                match Extension(groups[k], "questions")
                case Err(e) => Err(e)
                case Ok(more) => Ok(qs + more)
  {
    assert groups[..k + 1][..k] == groups[..k];
  }

  /** A group that cannot be read ends the gathering with its exception. */
  lemma {:induction false} GatheredFails(groups: seq<Json>, k: nat)
    requires k <= |groups| && Gathered(groups[..k]).Err?
    ensures Gathered(groups) == Gathered(groups[..k])
    decreases |groups| - k
  {
    if k < |groups| {
      GatheredSnoc(groups, k);
      GatheredFails(groups, k + 1);
    } else {
      assert groups[..k] == groups;
    }
  }

  /** `process_groups(groups)`: every group's `questions` gathered, then the batch loop. */
  method ProcessGroups(groups: seq<Json>, batchSize: int, llm: seq<Json> -> QuestionExtract.Reply,
                       loads: string -> Option<Json>, why: string -> string, ghost ask: seq<Json> -> Json)
    returns (r: Result<Json, PyError>)
    requires Asks(ask, llm, loads, why)
    ensures r == GroupsProcessed(groups, batchSize, ask)
  {
    var allQuestions: seq<Json> := [];
    for k := 0 to |groups|
      invariant Gathered(groups[..k]) == Ok(allQuestions)
    {
      GatheredSnoc(groups, k);
      var more := Extension(groups[k], "questions");
      if more.Err? {
        GatheredFails(groups, k + 1);
        return Err(more.error);
      }
      allQuestions := allQuestions + more.value;
    }
    assert groups[..|groups|] == groups;
    r := ProcessGroup(allQuestions, batchSize, llm, loads, why, ask);
  }

  /**
   * A batch loop that stopped returned the first result with an `error`:
   * `k` is its batch, and the batches before it were all taken in.
   */
  lemma {:induction false} FirstError(batches: seq<seq<Json>>, ask: seq<Json> -> Json, r: Json) returns (k: nat)
    requires Progressed(batches, ask) == Ok(Stopped(r))
    ensures k < |batches| && Progressed(batches[..k], ask).Ok? && Progressed(batches[..k], ask).value.Going?
    ensures r == ask(batches[k]) && In("error", r) == Ok(true)
    decreases |batches|
  {
    var init := batches[..|batches| - 1];
    var before := Progressed(init, ask);
    if before.Ok? && before.value.Stopped? {
      k := FirstError(init, ask, r);
      assert init[..k] == batches[..k];
    } else {
      k := |batches| - 1;
    }
  }

  /** What a batch result adds under `key`; nothing when it cannot be read. */
  function ExtensionOr(result: Json, key: string): seq<Json>
  {
    match Extension(result, key)
    case Ok(more) => more
    case Err(_) => []
  }

  /** Each batch's result's list under `key`, in batch order. */
  function Listed(batches: seq<seq<Json>>, ask: seq<Json> -> Json, key: string): seq<seq<Json>>
  {
    seq(|batches|, i requires 0 <= i < |batches| => ExtensionOr(ask(batches[i]), key))
  }

  /** Every result of a batch loop that ran through carried no `error` and readable lists. */
  ghost predicate Clean(batches: seq<seq<Json>>, ask: seq<Json> -> Json)
  {
    forall i | 0 <= i < |batches| :: Readable(ask(batches[i]))
  }

  /** A result the batch loop takes in without stopping or raising. */
  ghost predicate Readable(result: Json)
  {
    In("error", result) == Ok(false) && Extension(result, "answered").Ok? && Extension(result, "unanswered").Ok?
  }

  /**
   * A batch loop that ran through met no error result, and its lists are
   * the concatenation of every batch's `answered` and `unanswered`, in
   * batch order.
   */
  lemma {:induction false} BatchOrder(batches: seq<seq<Json>>, ask: seq<Json> -> Json, a: seq<Json>, u: seq<Json>)
    requires Progressed(batches, ask) == Ok(Going(a, u))
    ensures Clean(batches, ask)
    ensures a == Concat(Listed(batches, ask, "answered")) && u == Concat(Listed(batches, ask, "unanswered"))
    decreases |batches|
  {
    if |batches| > 0 {
      var n := |batches| - 1;
      var init := batches[..n];
      var before := Progressed(init, ask);
      assert before.Ok? && before.value.Going?;
      BatchOrder(init, ask, before.value.answered, before.value.unanswered);
      AbsorbGoing(before.value.answered, before.value.unanswered, ask(batches[n]), a, u);
      ListedSnoc(batches, ask, "answered");
      ListedSnoc(batches, ask, "unanswered");
      CleanSnoc(batches, ask);
    }
  }

  /** A result taken in without stopping had no `error` and readable lists, and they were appended. */
  lemma AbsorbGoing(a0: seq<Json>, u0: seq<Json>, result: Json, a: seq<Json>, u: seq<Json>)
    requires Absorb(a0, u0, result) == Ok(Going(a, u))
    ensures Readable(result)
    ensures a == a0 + ExtensionOr(result, "answered") && u == u0 + ExtensionOr(result, "unanswered")
  {
  }

  lemma CleanSnoc(batches: seq<seq<Json>>, ask: seq<Json> -> Json)
    requires |batches| > 0 && Clean(batches[..|batches| - 1], ask) && Readable(ask(batches[|batches| - 1]))
    ensures Clean(batches, ask)
  {
    var n := |batches| - 1;
    forall i | 0 <= i < |batches|
      ensures Readable(ask(batches[i]))
    {
      if i < n {
        assert batches[i] == batches[..n][i];
      }
    }
  }

  lemma ListedSnoc(batches: seq<seq<Json>>, ask: seq<Json> -> Json, key: string)
    requires |batches| > 0
    ensures Concat(Listed(batches, ask, key)) ==
              Concat(Listed(batches[..|batches| - 1], ask, key)) + ExtensionOr(ask(batches[|batches| - 1]), key)
  {
    var n := |batches| - 1;
    assert Listed(batches, ask, key)[..n] == Listed(batches[..n], ask, key);
  }

  /**
   * `process_group` on questions it can batch: a result with an `error` is
   * the first error result; otherwise the answers are every batch's in
   * order, and the batches cover every question once, in order.
   */
  lemma GroupedSpec(questions: seq<Json>, batchSize: int, ask: seq<Json> -> Json)
    requires batchSize > 0 && Grouped(questions, batchSize, ask).Ok?
    ensures var bs := Batches(questions, batchSize);
            var r := Grouped(questions, batchSize, ask).value;
            Concat(bs) == questions &&
            (Progressed(bs, ask).value.Going? ==>
               Clean(bs, ask) &&
               r == JObject([("answered", JArray(Concat(Listed(bs, ask, "answered")))),
                             ("unanswered", JArray(Concat(Listed(bs, ask, "unanswered"))))])) &&
            (Progressed(bs, ask).value.Stopped? ==>
               exists k | 0 <= k < |bs| :: r == ask(bs[k]) && In("error", r) == Ok(true) &&
                                           Progressed(bs[..k], ask).Ok? && Progressed(bs[..k], ask).value.Going?)
  {
    var bs := Batches(questions, batchSize);
    BatchesCover(questions, batchSize);
    var p := Progressed(bs, ask).value;
    if p.Going? {
      BatchOrder(bs, ask, p.answered, p.unanswered);
    } else {
      var k := FirstError(bs, ask, p.result);
    }
  }

  // ---------------------------------------------------------------------
  // generate

  /**
   * `group_chunks`: `len(groups)` (a TypeError for a value without one),
   * then `range` with step `groupsPerCall` (a ValueError for 0), then the
   * slices; slicing a non-empty dict is a TypeError. Iterating a chunk of a
   * string yields its characters.
   */
  function Chunks(groups: Json, groupsPerCall: int): Result<seq<seq<Json>>, PyError>
  {
    if !(groups.JArray? || groups.JString? || groups.JObject?) then Err(TypeError)
    else if groupsPerCall == 0 then Err(ValueError)
    else
      match groups
      case JArray(items) => Ok(Batches(items, groupsPerCall))
      case JString(s) => Ok(Batches(Chars(s), groupsPerCall))
      case JObject(ms) => if groupsPerCall > 0 && |Keys(ms)| > 0 then Err(TypeError) else Ok([])
  }

  /** A dict with only an `error` message. */
  function Error(message: string): Json
  {
    JObject([("error", JString(message))])
  }

  /**
   * The merge loop of `generate` over the gathered outcomes: an exception
   * or a dict with an `error` key stops it; other dicts' lists are appended
   * and anything else is skipped.
   */
  function Collected(outcomes: seq<Result<Json, PyError>>, describe: PyError -> string): Result<Progress, PyError>
    decreases |outcomes|
  {
    if |outcomes| == 0 then Ok(Going([], []))
    else
      match Collected(outcomes[..|outcomes| - 1], describe)
      case Err(e) => Err(e)
      case Ok(p) =>
        if p.Stopped? then Ok(p) else Merge(p.answered, p.unanswered, outcomes[|outcomes| - 1], describe)
  }

  /** One outcome taken in by the merge loop. */
  function Merge(answered: seq<Json>, unanswered: seq<Json>, outcome: Result<Json, PyError>,
                 describe: PyError -> string): Result<Progress, PyError>
  {
    match outcome
    case Err(e) => Ok(Stopped(Error("Task failed with exception: " + describe(e))))
    case Ok(result) => if result.JObject? then Absorb(answered, unanswered, result) else Ok(Going(answered, unanswered))
  }

  /** What `generate` returns when nothing stopped it: only the lists that are non-empty. */
  function Output(p: Progress): Json
  {
    match p
    case Stopped(result) => result
    case Going(a, u) =>
      JObject((if a != [] then [("answered", JArray(a))] else []) +
              (if u != [] then [("unanswered", JArray(u))] else []))
  }

  /** What `asyncio.gather(..., return_exceptions=True)` hands back: each chunk's outcome, in chunk order. */
  function Outcomes(chunks: seq<seq<Json>>, batchSize: int, ask: seq<Json> -> Json): seq<Result<Json, PyError>>
  {
    seq(|chunks|, i requires 0 <= i < |chunks| => GroupsProcessed(chunks[i], batchSize, ask))
  }

  /** `generate()` on a question template. */
  function Generated(template: Json, groupsPerCall: int, batchSize: int, ask: seq<Json> -> Json,
                     describe: PyError -> string): Result<Json, PyError>
  {
    match GetOr(template, "groups", JArray([]))
    case Err(e) => Err(e)
    case Ok(groups) =>
      match Chunks(groups, groupsPerCall)
      case Err(e) => Err(e)
      case Ok(chunks) =>
        match Collected(Outcomes(chunks, batchSize, ask), describe)
        case Err(e) => Err(e)
        case Ok(p) => Ok(Output(p))
  }

  lemma CollectedSnoc(outcomes: seq<Result<Json, PyError>>, k: nat, describe: PyError -> string)
    requires k < |outcomes|
    ensures Collected(outcomes[..k + 1], describe) ==
              match Collected(outcomes[..k], describe)
              case Err(e) => Err(e)
              case Ok(p) =>
                if p.Stopped? then Ok(p) else Merge(p.answered, p.unanswered, outcomes[k], describe)
  {
    assert outcomes[..k + 1][..k] == outcomes[..k];
  }

  /** Once the merge has stopped or raised, later outcomes change nothing. */
  lemma {:induction false} CollectedSettled(outcomes: seq<Result<Json, PyError>>, k: nat, describe: PyError -> string)
    requires k <= |outcomes|
    requires Collected(outcomes[..k], describe).Err? || Collected(outcomes[..k], describe).value.Stopped?
    ensures Collected(outcomes, describe) == Collected(outcomes[..k], describe)
    decreases |outcomes| - k
  {
    if k < |outcomes| {
      CollectedSnoc(outcomes, k, describe);
      CollectedSettled(outcomes, k + 1, describe);
    } else {
      assert outcomes[..k] == outcomes;
    }
  }

  /** The merge loop of `generate`. */
  method MergeOutcomes(results: seq<Result<Json, PyError>>, describe: PyError -> string)
    returns (r: Result<Progress, PyError>)
    ensures r == Collected(results, describe)
  {
    var answered: seq<Json> := [];
    var unanswered: seq<Json> := [];
    for k := 0 to |results|
      invariant Collected(results[..k], describe) == Ok(Going(answered, unanswered))
    {
      CollectedSnoc(results, k, describe);
      var next: Result<Progress, PyError>;
      if results[k].Err? {
        next := Ok(Stopped(Error("Task failed with exception: " + describe(results[k].error))));
      } else if results[k].value.JObject? {
        next := AbsorbStep(answered, unanswered, results[k].value);
      } else {
        next := Ok(Going(answered, unanswered));
      }
      if next.Err? || next.value.Stopped? {
        CollectedSettled(results, k + 1, describe);
        return next;
      }
      answered, unanswered := next.value.answered, next.value.unanswered;
    }
    assert results[..|results|] == results;
    return Ok(Going(answered, unanswered));
  }

  /** The tasks `generate` hands to `asyncio.gather`, run one after another in chunk order. */
  method ProcessChunks(chunks: seq<seq<Json>>, batchSize: int, llm: seq<Json> -> QuestionExtract.Reply,
                       loads: string -> Option<Json>, why: string -> string, ghost ask: seq<Json> -> Json)
    returns (results: seq<Result<Json, PyError>>)
    requires Asks(ask, llm, loads, why)
    ensures results == Outcomes(chunks, batchSize, ask)
  {
    results := [];
    for k := 0 to |chunks|
      invariant results == Outcomes(chunks[..k], batchSize, ask)
    {
      var outcome := ProcessGroups(chunks[k], batchSize, llm, loads, why, ask);
      results := results + [outcome];
    }
    assert chunks[..|chunks|] == chunks;
  }

  /** `generate()`: every chunk processed in order, then the merge. */
  method Generate(template: Json, groupsPerCall: int, batchSize: int, llm: seq<Json> -> QuestionExtract.Reply,
                  loads: string -> Option<Json>, why: string -> string, describe: PyError -> string,
                  ghost ask: seq<Json> -> Json)
    returns (r: Result<Json, PyError>)
    requires Asks(ask, llm, loads, why)
    ensures r == Generated(template, groupsPerCall, batchSize, ask, describe)
  {
    var groups := GetOr(template, "groups", JArray([]));
    if groups.Err? {
      return Err(groups.error);
    }
    var groupChunks := Chunks(groups.value, groupsPerCall);
    if groupChunks.Err? {
      return Err(groupChunks.error);
    }
    var results := ProcessChunks(groupChunks.value, batchSize, llm, loads, why, ask);
    var merged := MergeOutcomes(results, describe);
    if merged.Err? {
      return Err(merged.error);
    }
    if merged.value.Stopped? {
      return Ok(merged.value.result);
    }
    var output: seq<(string, Json)> := [];
    if merged.value.answered != [] {
      output := output + [("answered", JArray(merged.value.answered))];
    }
    if merged.value.unanswered != [] {
      output := output + [("unanswered", JArray(merged.value.unanswered))];
    }
    assert output == Output(merged.value).members;
    return Ok(JObject(output));
  }

  /** Slicing a list of groups by `groupsPerCall` covers every group once, in order, with no empty chunk. */
  lemma ChunksCover(groups: seq<Json>, groupsPerCall: int)
    requires groupsPerCall > 0
    ensures Chunks(JArray(groups), groupsPerCall).Ok?
    ensures var cs := Chunks(JArray(groups), groupsPerCall).value;
            Concat(cs) == groups && forall i | 0 <= i < |cs| :: 0 < |cs[i]| <= groupsPerCall
  {
    BatchesCover(groups, groupsPerCall);
  }

  lemma LookupError(message: string)
    ensures Lookup(Error(message).members, "error").Some?
  {
    assert Error(message).members[..1] == Error(message).members;
  }

  /**
   * A merge that stopped returned the first outcome that stops it: `k` is
   * its chunk, every earlier outcome was taken in, and the result is either
   * the exception's description or that chunk's own error dict.
   */
  lemma {:induction false} FirstFailure(outcomes: seq<Result<Json, PyError>>, describe: PyError -> string, r: Json)
    returns (k: nat)
    requires Collected(outcomes, describe) == Ok(Stopped(r))
    ensures k < |outcomes| && Collected(outcomes[..k], describe).Ok? && Collected(outcomes[..k], describe).value.Going?
    ensures match outcomes[k]
            case Err(e) => r == Error("Task failed with exception: " + describe(e))
            case Ok(v) => v == r && r.JObject? && Lookup(r.members, "error").Some?
    decreases |outcomes|
  {
    var init := outcomes[..|outcomes| - 1];
    var before := Collected(init, describe);
    if before.Ok? && before.value.Stopped? {
      k := FirstFailure(init, describe, r);
      assert init[..k] == outcomes[..k];
    } else {
      k := |outcomes| - 1;
    }
  }

  /**
   * `generate` returns a dict that either carries an `error` key or holds
   * only `answered` and `unanswered`, each a non-empty list: empty lists
   * are left out.
   */
  lemma GeneratedShape(template: Json, groupsPerCall: int, batchSize: int, ask: seq<Json> -> Json,
                       describe: PyError -> string)
    requires Generated(template, groupsPerCall, batchSize, ask, describe).Ok?
    ensures var r := Generated(template, groupsPerCall, batchSize, ask, describe).value;
            r.JObject? &&
            (Lookup(r.members, "error").Some? ||
             forall i | 0 <= i < |r.members| ::
               (r.members[i].0 == "answered" || r.members[i].0 == "unanswered") &&
               r.members[i].1.JArray? && r.members[i].1.items != [])
  {
    var groups := GetOr(template, "groups", JArray([])).value;
    var chunks := Chunks(groups, groupsPerCall).value;
    var outcomes := Outcomes(chunks, batchSize, ask);
    var p := Collected(outcomes, describe).value;
    if p.Stopped? {
      var k := FirstFailure(outcomes, describe, p.result);
      if outcomes[k].Err? {
        LookupError("Task failed with exception: " + describe(outcomes[k].error));
      }
    }
  }
}
