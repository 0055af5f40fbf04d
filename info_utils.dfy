// The retrieval utilities (src/InfoRetrieval/Utils.py): picking the text
// field of a corpus record, assembling a document from the corpus records
// whose segment id starts with the requested id, and the markdown selection
// of at most three distinct documents, each in full or cut down to its best
// paragraph. The corpus file is an input: None when it is not a file,
// otherwise one decoded value per line (None for a line `json.loads` rejects).
module InfoUtils {
  import opened Wrappers
  import opened Strings
  import opened Json
  import opened PyJson
  import opened PyText

  // ---------------------------------------------------------------------
  // _extract_text_field

  /** The keys `_extract_text_field` tries, in order. */
  const TextKeys: seq<string> := ["segment_text", "contents", "text", "Clean-Text", "body"]

  /** `key in obj and obj[key]`. */
  predicate Holds(obj: seq<(string, Json)>, key: string)
  {
    Lookup(obj, key).Some? && Truthy(Lookup(obj, key).value)
  }

  /** None of the first `i` keys holds a truthy value. */
  predicate NoneBefore(obj: seq<(string, Json)>, keys: seq<string>, i: nat)
    requires i <= |keys|
  {
    forall j | 0 <= j < i :: !Holds(obj, keys[j])
  }

  /** The value of the first key that holds a truthy value, else the empty string. */
  function FirstTruthy(obj: seq<(string, Json)>, keys: seq<string>): (r: Json)
    ensures NoneBefore(obj, keys, |keys|) ==> r == JString("")
    ensures forall i | 0 <= i < |keys| && Holds(obj, keys[i]) && NoneBefore(obj, keys, i) ::
              r == Lookup(obj, keys[i]).value
    decreases |keys|
  {
    if |keys| == 0 then JString("")
    else
      var rest := FirstTruthy(obj, keys[1..]);
      assert forall i | 1 <= i <= |keys| :: NoneBefore(obj, keys, i) ==> NoneBefore(obj, keys[1..], i - 1);
      if Holds(obj, keys[0]) then Lookup(obj, keys[0]).value else rest
  }

  /** `_extract_text_field`. */
  function ExtractTextField(obj: seq<(string, Json)>): Json
  {
    FirstTruthy(obj, TextKeys)
  }

  // ---------------------------------------------------------------------
  // get_document_text

  /**
   * What one corpus line adds to the document: its `segment` when its
   * `segment_id` starts with `id`, nothing otherwise; the exceptions Python
   * raises on an undecodable line, a missing key, or a value of the wrong type.
   */
  function Contribution(line: Option<Json>, id: string): (r: Result<string, PyError>)
  {
    match line
    case None => Err(JsonDecodeError)
    case Some(data) =>
      match Index(data, "segment_id")
      case Err(e) => Err(e)
      case Ok(sid) =>
        if !sid.JString? then Err(TypeError)
        else if !(id <= sid.s) then Ok("")
        else match Index(data, "segment")
          case Err(e) => Err(e)
          case Ok(seg) => if seg.JString? then Ok(seg.s) else Err(TypeError)
  }

  /** Each line's contribution, in file order. */
  function Contributions(lines: seq<Option<Json>>, id: string): (cs: seq<Result<string, PyError>>)
    ensures |cs| == |lines| && forall i | 0 <= i < |lines| :: cs[i] == Contribution(lines[i], id)
    decreases |lines|
  {
    if |lines| == 0 then [] else Contributions(lines[..|lines| - 1], id) + [Contribution(lines[|lines| - 1], id)]
  }

  /** `output += piece` over the pieces in order; the first exception stops it. */
  function Appended(cs: seq<Result<string, PyError>>): (r: Result<string, PyError>)
    decreases |cs|
  {
    if |cs| == 0 then Ok("")
    else match Appended(cs[..|cs| - 1])
      case Err(e) => Err(e)
      case Ok(t) =>
        match cs[|cs| - 1]
        case Err(e) => Err(e)
        case Ok(c) => Ok(t + c)
  }

  /** The lines' contributions concatenated in file order; the first failing line's exception. */
  function Gathered(lines: seq<Option<Json>>, id: string): (r: Result<string, PyError>)
  {
    Appended(Contributions(lines, id))
  }

  /** `get_document_text(id, path)` over the corpus. */
  function DocumentText(corpus: Option<seq<Option<Json>>>, id: string): (r: Result<string, PyError>)
  {
    match corpus
    case None => Err(FileNotFound)
    case Some(lines) => Gathered(lines, id)
  }

  /** The corpus is read line by line, each matching segment appended to the output. */
  method GetDocumentText(id: string, corpus: Option<seq<Option<Json>>>) returns (r: Result<string, PyError>)
    ensures r == DocumentText(corpus, id)
  {
    if corpus.None? {
      return Err(FileNotFound);
    }
    var lines := corpus.value;
    ghost var cs := Contributions(lines, id);
    var output := "";
    var i := 0;
    while i < |lines|
      invariant i <= |lines|
      invariant Appended(cs[..i]) == Ok(output)
    {
      assert cs[..i + 1][..i] == cs[..i];
      var c := Contribution(lines[i], id);
      if c.Err? {
        AppendedConcat(cs[..i + 1], cs[i + 1..]);
        assert cs[..i + 1] + cs[i + 1..] == cs;
        return Err(c.error);
      }
      output := output + c.value;
      i := i + 1;
    }
    assert cs[..i] == cs;
    return Ok(output);
  }

  /** Contributions of two runs of lines are the two runs of contributions. */
  lemma ContributionsConcat(a: seq<Option<Json>>, b: seq<Option<Json>>, id: string)
    ensures Contributions(a + b, id) == Contributions(a, id) + Contributions(b, id)
  {
  }

  /** A single piece is the whole output. */
  lemma AppendedOne(c: Result<string, PyError>)
    ensures Appended([c]) == c
  {
    assert [c][..0] == [];
    match c
    case Err(e) =>
    case Ok(t) => assert "" + t == t;
  }

  /**
   * Appending distributes over the pieces: the output of two runs is the
   * output of the first followed by the output of the second, and a failure
   * in the first run is the failure of the whole.
   */
  lemma {:induction false} AppendedConcat(x: seq<Result<string, PyError>>, y: seq<Result<string, PyError>>)
    ensures Appended(x).Err? ==> Appended(x + y) == Appended(x)
    ensures Appended(x).Ok? && Appended(y).Ok? ==> Appended(x + y) == Ok(Appended(x).value + Appended(y).value)
    ensures Appended(x).Ok? && Appended(y).Err? ==> Appended(x + y) == Appended(y)
    decreases |y|
  {
    if |y| == 0 {
      assert x + y == x;
      if Appended(x).Ok? {
        assert Appended(x).value + "" == Appended(x).value;
      }
    } else {
      var init := y[..|y| - 1];
      var last := y[|y| - 1];
      AppendedConcat(x, init);
      assert (x + y)[..|x + y| - 1] == x + init;
      assert (x + y)[|x + y| - 1] == last;
      if Appended(x).Ok? && Appended(init).Ok? && last.Ok? {
        var p, q, s := Appended(x).value, Appended(init).value, last.value;
        assert (p + q) + s == p + (q + s);
      }
    }
  }

  /** A single line contributes exactly its own text. */
  lemma GatheredOne(line: Option<Json>, id: string)
    ensures Gathered([line], id) == Contribution(line, id)
  {
    AppendedOne(Contribution(line, id));
    assert Contributions([line], id) == [Contribution(line, id)];
  }

  /**
   * Assembly distributes over the file: the text of two runs of lines is the
   * text of the first followed by the text of the second, and a failure in
   * the first run is the failure of the whole.
   */
  lemma GatheredAppend(a: seq<Option<Json>>, b: seq<Option<Json>>, id: string)
    ensures Gathered(a, id).Err? ==> Gathered(a + b, id) == Gathered(a, id)
    ensures Gathered(a, id).Ok? && Gathered(b, id).Ok? ==>
              Gathered(a + b, id) == Ok(Gathered(a, id).value + Gathered(b, id).value)
    ensures Gathered(a, id).Ok? && Gathered(b, id).Err? ==> Gathered(a + b, id) == Gathered(b, id)
  {
    ContributionsConcat(a, b, id);
    AppendedConcat(Contributions(a, id), Contributions(b, id));
  }

  /** A line whose segment id does not start with `id` adds nothing, wherever it stands. */
  lemma NonMatchingAddsNothing(a: seq<Option<Json>>, line: Option<Json>, b: seq<Option<Json>>, id: string)
    requires line.Some? && Index(line.value, "segment_id").Ok?
    requires Index(line.value, "segment_id").value.JString? && !(id <= Index(line.value, "segment_id").value.s)
    ensures Gathered(a + [line] + b, id) == Gathered(a + b, id)
  {
    GatheredOne(line, id);
    assert Gathered([line], id) == Ok("");
    GatheredAppend(a, [line], id);
    if Gathered(a, id).Ok? {
      assert Gathered(a, id).value + "" == Gathered(a, id).value;
    }
    assert Gathered(a + [line], id) == Gathered(a, id);
    GatheredAppend(a + [line], b, id);
    GatheredAppend(a, b, id);
  }

  /** The document id is a plain prefix test: asking for `doc_1` also collects the segments of `doc_10`. */
  lemma PrefixCollision()
    ensures var line := JObject([("segment_id", JString("doc_10#0")), ("segment", JString("text of doc 10"))]);
            DocumentText(Some([Some(line)]), "doc_1") == Ok("text of doc 10")
  {
    var line := JObject([("segment_id", JString("doc_10#0")), ("segment", JString("text of doc 10"))]);
    GatheredOne(Some(line), "doc_1");
    assert "doc_1" <= "doc_10#0";
  }

  // ---------------------------------------------------------------------
  // document_selection: the first three distinct document ids

  /** `raw_id.split("#", 1)[0]` for every id. */
  function DocIds(ids: seq<string>): (r: seq<string>)
    ensures |r| == |ids| && forall i | 0 <= i < |ids| :: r[i] == Before(ids[i], '#')
    decreases |ids|
  {
    if |ids| == 0 then [] else DocIds(ids[..|ids| - 1]) + [Before(ids[|ids| - 1], '#')]
  }

  /** The queue of documents to fetch: the first three distinct document ids, in first-occurrence order. */
  function Queue(ids: seq<string>): seq<string>
  {
    Take(Dedup(DocIds(ids)), 3)
  }

  /** The insertion-ordered set of a prefix is a prefix of the whole's. */
  lemma {:induction false} DedupPrefix<T>(xs: seq<T>, n: nat)
    requires n <= |xs|
    ensures Dedup(xs[..n]) <= Dedup(xs)
    decreases |xs| - n
  {
    if n < |xs| {
      DedupPrefix(xs, n + 1);
      assert xs[..n + 1][..n] == xs[..n];
    } else {
      assert xs[..n] == xs;
    }
  }

  /**
   * The queue holds at most three distinct document ids, each one of the
   * input's; and when it holds fewer than three, it holds them all.
   */
  lemma QueueMembers(ids: seq<string>)
    ensures |Queue(ids)| <= 3
    ensures forall a, b | 0 <= a < b < |Queue(ids)| :: Queue(ids)[a] != Queue(ids)[b]
    ensures forall d | d in Queue(ids) :: d in DocIds(ids)
    ensures |Queue(ids)| < 3 ==> forall i | 0 <= i < |ids| :: Before(ids[i], '#') in Queue(ids)
    ensures ids != [] ==> |Queue(ids)| >= 1 && Queue(ids)[0] == Before(ids[0], '#')
  {
    var all := Dedup(DocIds(ids));
    DedupMembers(DocIds(ids));
    DedupDistinct(DocIds(ids));
    if ids != [] {
      DedupFirst(DocIds(ids));
    }
    if |all| < 3 {
      forall i | 0 <= i < |ids| ensures Before(ids[i], '#') in Queue(ids) {
        assert DocIds(ids)[i] in DocIds(ids);
      }
    }
  }

  /** Once three documents are queued, the rest of the ids cannot change the queue. */
  lemma QueueFull(ids: seq<string>, i: nat)
    requires i <= |ids| && |Dedup(DocIds(ids)[..i])| == 3
    ensures Queue(ids) == Dedup(DocIds(ids)[..i])
  {
    DedupPrefix(DocIds(ids), i);
  }

  /** One id through the loop: its document is queued unless already seen. */
  lemma QueueStep(ids: seq<string>, i: nat)
    requires i < |ids|
    ensures Dedup(DocIds(ids)[..i + 1]) == AddNew(Dedup(DocIds(ids)[..i]), Before(ids[i], '#'))
  {
    DedupSnoc(DocIds(ids), i);
  }

  /** The loop over the ids, with its `seen` set and its break once three documents are queued. */
  method CollapseIds(ids: seq<string>) returns (queue: seq<string>)
    ensures queue == Queue(ids)
  {
    var seen: set<string> := {};
    queue := [];
    var i := 0;
    while i < |ids|
      invariant i <= |ids|
      invariant queue == Dedup(DocIds(ids)[..i]) && |queue| < 3
      invariant seen == set d | d in queue
    {
      QueueStep(ids, i);
      var docId := Before(ids[i], '#');
      if docId !in seen {
        seen := seen + {docId};
        queue := queue + [docId];
      }
      i := i + 1;
      if |queue| == 3 {
        QueueFull(ids, i);
        return;
      }
    }
    assert DocIds(ids)[..i] == DocIds(ids);
  }

  // ---------------------------------------------------------------------
  // _best_fragment

  /** The stripped non-blank pieces, in order. */
  function NonBlank(ps: seq<string>): (r: seq<string>)
    decreases |ps|
  {
    if |ps| == 0 then []
    else
      var rest := NonBlank(ps[..|ps| - 1]);
      var p := Strip(ps[|ps| - 1]);
      if p == [] then rest else rest + [p]
  }

  /** Every paragraph is non-empty and already stripped. */
  lemma {:induction false} NonBlankStripped(ps: seq<string>)
    ensures forall p | p in NonBlank(ps) :: p != [] && Strip(p) == p
    decreases |ps|
  {
    if |ps| > 0 {
      NonBlankStripped(ps[..|ps| - 1]);
      StripUnchanged(Strip(ps[|ps| - 1]));
    }
  }

  /** `[p.strip() for p in text.split("\n\n") if p.strip()]`. */
  function Paragraphs(text: string): seq<string>
  {
    NonBlank(SplitSep(text, "\n\n"))
  }

  /** `max(ps, key=len)`: the first of the longest. */
  function Longest(ps: seq<string>): (r: string)
    requires |ps| > 0
    ensures r in ps && forall p | p in ps :: |p| <= |r|
    decreases |ps|
  {
    if |ps| == 1 then ps[0]
    else
      var b := Longest(ps[..|ps| - 1]);
      assert forall p | p in ps :: p in ps[..|ps| - 1] || p == ps[|ps| - 1];
      if |ps[|ps| - 1]| > |b| then ps[|ps| - 1] else b
  }

  /** No earlier piece is as long as the longest: `max` keeps the first it sees. */
  lemma {:induction false} LongestIsFirst(ps: seq<string>) returns (k: nat)
    requires |ps| > 0
    ensures k < |ps| && ps[k] == Longest(ps)
    ensures forall j | 0 <= j < k :: |ps[j]| < |Longest(ps)|
    decreases |ps|
  {
    if |ps| == 1 {
      k := 0;
    } else {
      var init := ps[..|ps| - 1];
      var b := Longest(init);
      k := LongestIsFirst(init);
      if |ps[|ps| - 1]| > |b| {
        forall j | 0 <= j < |ps| - 1 ensures |ps[j]| < |Longest(ps)| {
          assert init[j] == ps[j] && init[j] in init;
        }
        k := |ps| - 1;
      }
    }
  }

  /** `s.rfind(" ", 0, end)` for an already normalised end: the last space before `end`. */
  function LastSpace(s: string, end: nat): (r: Option<nat>)
    requires end <= |s|
    ensures r.Some? ==> r.value < end && s[r.value] == ' '
    ensures r.Some? ==> forall k | r.value < k < end :: s[k] != ' '
    ensures r.None? ==> forall k | 0 <= k < end :: s[k] != ' '
    decreases end
  {
    if end == 0 then None
    else if s[end - 1] == ' ' then Some(end - 1)
    else LastSpace(s, end - 1)
  }

  /** `_best_fragment(text)` with the character cap `limit`. */
  function BestFragment(text: string, limit: int): string
  {
    var ps := Paragraphs(text);
    if ps == [] then Prefix(text, limit)
    else
      var best := Longest(ps);
      if |best| <= limit then best
      else
        match LastSpace(best, SliceEnd(limit, |best|))
        case Some(cut) => best[..cut] + "…"
        case None => Prefix(best, limit) + "…"
  }

  /**
   * With no paragraph the fragment is the text's prefix; otherwise it is the
   * first longest paragraph when that fits the cap, or else that paragraph
   * cut at its last space before the cap (or at the cap) with an ellipsis.
   */
  lemma BestFragmentChoice(text: string, limit: int)
    ensures Paragraphs(text) == [] ==> BestFragment(text, limit) == Prefix(text, limit)
    ensures Paragraphs(text) != [] ==>
              var best := Longest(Paragraphs(text));
              if |best| <= limit then BestFragment(text, limit) == best
              else exists c: nat | c <= SliceEnd(limit, |best|) ::
                     BestFragment(text, limit) == best[..c] + "…" &&
                     (c == SliceEnd(limit, |best|) || best[c] == ' ') &&
                     forall k | c < k < SliceEnd(limit, |best|) :: best[k] != ' '
  {
    var ps := Paragraphs(text);
    if ps != [] {
      var best := Longest(ps);
      if |best| > limit {
        var e := SliceEnd(limit, |best|);
        match LastSpace(best, e)
        case Some(cut) =>
          assert BestFragment(text, limit) == best[..cut] + "…";
        case None =>
          assert BestFragment(text, limit) == best[..e] + "…";
      }
    }
  }

  /** With a non-negative cap the fragment holds at most the cap's characters, plus the ellipsis when it was cut. */
  lemma FragmentFits(text: string, limit: int)
    requires limit >= 0
    ensures |BestFragment(text, limit)| <= limit + 1
  {
    var ps := Paragraphs(text);
    if ps != [] {
      var best := Longest(ps);
      if |best| > limit {
        var e := SliceEnd(limit, |best|);
        assert e == limit;
        match LastSpace(best, e)
        case Some(cut) =>
          assert BestFragment(text, limit) == best[..cut] + "…";
        case None =>
          assert BestFragment(text, limit) == Prefix(best, limit) + "…";
      }
    }
  }

  // ---------------------------------------------------------------------
  // document_selection

  /** `f"### {doc_id}\n{doc_text}"`. */
  function Block(id: string, text: string): string
  {
    "### " + id + "\n" + text
  }

  function Blocks(ids: seq<string>, texts: seq<string>): (r: seq<string>)
    requires |ids| == |texts|
    ensures |r| == |ids| && forall i | 0 <= i < |ids| :: r[i] == Block(ids[i], texts[i])
    decreases |ids|
  {
    if |ids| == 0 then []
    else Blocks(ids[..|ids| - 1], texts[..|texts| - 1]) + [Block(ids[|ids| - 1], texts[|texts| - 1])]
  }

  /** The texts of the queued documents in queue order; the first failure in that order. */
  function FetchAll(queue: seq<string>, corpus: Option<seq<Option<Json>>>): (r: Result<seq<string>, PyError>)
    ensures r.Ok? ==> |r.value| == |queue|
    decreases |queue|
  {
    if |queue| == 0 then Ok([])
    else match FetchAll(queue[..|queue| - 1], corpus)
      case Err(e) => Err(e)
      case Ok(ts) =>
        match DocumentText(corpus, queue[|queue| - 1])
        case Err(e) => Err(e)
        case Ok(t) => Ok(ts + [t])
  }

  /** One more queued document: its text is added, or its failure ends the fetch. */
  lemma FetchStep(queue: seq<string>, i: nat, corpus: Option<seq<Option<Json>>>)
    requires i < |queue| && FetchAll(queue[..i], corpus).Ok?
    ensures FetchAll(queue[..i + 1], corpus) ==
              match DocumentText(corpus, queue[i])
              case Err(e) => Err(e)
              case Ok(t) => Ok(FetchAll(queue[..i], corpus).value + [t])
  {
    assert queue[..i + 1][..i] == queue[..i];
  }

  /** Once a document fails, the later ones are not looked at. */
  lemma {:induction false} FetchAllPrefixFailure(queue: seq<string>, n: nat, corpus: Option<seq<Option<Json>>>)
    requires n <= |queue| && FetchAll(queue[..n], corpus).Err?
    ensures FetchAll(queue, corpus) == FetchAll(queue[..n], corpus)
    decreases |queue| - n
  {
    if n < |queue| {
      assert queue[..n + 1][..n] == queue[..n];
      FetchAllPrefixFailure(queue, n + 1, corpus);
    } else {
      assert queue[..n] == queue;
    }
  }

  /** Each text as the caller asked for it: in full, or its best fragment. */
  function Finals(texts: seq<string>, bestFragment: bool, limit: int): (r: seq<string>)
    ensures |r| == |texts|
    ensures forall i | 0 <= i < |texts| :: r[i] == if bestFragment then BestFragment(texts[i], limit) else texts[i]
    decreases |texts|
  {
    if |texts| == 0 then []
    else
      var t := texts[|texts| - 1];
      Finals(texts[..|texts| - 1], bestFragment, limit) + [if bestFragment then BestFragment(t, limit) else t]
  }

  /** `document_selection(ids, bestFragment, path, limit)`. */
  function Selection(ids: seq<string>, bestFragment: bool, corpus: Option<seq<Option<Json>>>, limit: int): Result<string, PyError>
  {
    if ids == [] then Err(ValueError)
    else
      var queue := Queue(ids);
      match FetchAll(queue, corpus)
      case Err(e) => Err(e)
      case Ok(texts) => Ok(Join("\n\n", Blocks(queue, Finals(texts, bestFragment, limit))))
  }

  /** The ids are collapsed, every queued document fetched in order, and the blocks joined. */
  method DocumentSelection(ids: seq<string>, bestFragment: bool, corpus: Option<seq<Option<Json>>>, limit: int)
    returns (r: Result<string, PyError>)
    ensures r == Selection(ids, bestFragment, corpus, limit)
  {
    if ids == [] {
      return Err(ValueError);
    }
    var queue := CollapseIds(ids);
    var docs: seq<string> := [];
    var i := 0;
    while i < |queue|
      invariant i <= |queue|
      invariant FetchAll(queue[..i], corpus) == Ok(docs)
    {
      FetchStep(queue, i, corpus);
      var t := GetDocumentText(queue[i], corpus);
      if t.Err? {
        FetchAllPrefixFailure(queue, i + 1, corpus);
        return Err(t.error);
      }
      docs := docs + [t.value];
      i := i + 1;
    }
    assert queue[..i] == queue;
    var finals := Finals(docs, bestFragment, limit);
    return Ok(Join("\n\n", Blocks(queue, finals)));
  }

  /** Only an empty id list is rejected with ValueError; the other failures are the corpus's. */
  lemma SelectionRejectsEmpty(ids: seq<string>, bestFragment: bool, corpus: Option<seq<Option<Json>>>, limit: int)
    ensures Selection(ids, bestFragment, corpus, limit) == Err(ValueError) <==> ids == []
  {
    if ids != [] {
      NoValueError(Queue(ids), corpus);
    }
  }

  lemma {:induction false} NoValueError(queue: seq<string>, corpus: Option<seq<Option<Json>>>)
    ensures FetchAll(queue, corpus) != Err(ValueError)
    decreases |queue|
  {
    if |queue| > 0 {
      NoValueError(queue[..|queue| - 1], corpus);
      match corpus
      case None =>
      case Some(lines) => GatheredNoValueError(lines, queue[|queue| - 1]);
    }
  }

  lemma GatheredNoValueError(lines: seq<Option<Json>>, id: string)
    ensures Gathered(lines, id) != Err(ValueError)
  {
    AppendedNoValueError(Contributions(lines, id));
  }

  lemma {:induction false} AppendedNoValueError(cs: seq<Result<string, PyError>>)
    requires forall i | 0 <= i < |cs| :: cs[i] != Err(ValueError)
    ensures Appended(cs) != Err(ValueError)
    decreases |cs|
  {
    if |cs| > 0 {
      AppendedNoValueError(cs[..|cs| - 1]);
    }
  }

  /** The selection holds one `### id` header per queued document, in queue order. */
  lemma SelectionHeaders(ids: seq<string>, bestFragment: bool, corpus: Option<seq<Option<Json>>>, limit: int, i: nat)
    requires Selection(ids, bestFragment, corpus, limit).Ok? && i < |Queue(ids)|
    ensures Contains(Selection(ids, bestFragment, corpus, limit).value, "### " + Queue(ids)[i] + "\n")
  {
    var queue := Queue(ids);
    var texts := FetchAll(queue, corpus).value;
    var blocks := Blocks(queue, Finals(texts, bestFragment, limit));
    JoinContains("\n\n", blocks, i);
    var b := blocks[i];
    assert b == ("### " + queue[i] + "\n") + Finals(texts, bestFragment, limit)[i];
    ContainsPrefix(Join("\n\n", blocks), b, "### " + queue[i] + "\n");
  }
}
