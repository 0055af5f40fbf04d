// The run generator's own steps (src/RunGeneration/generate_runs.py): reading
// the topics file, cutting a report into cited sentences, checking the
// responses before submission, building a run entry, and the loop over the
// topics that keeps the entries that pass. The report pipeline behind
// `generate_report_for_topic`, Python's `hash` and `str` of a non-string
// topic id are parameters; files, clients and printing are not modelled.
module GenerateRuns {
  import opened Wrappers
  import opened Decimal
  import opened Json
  import opened PyJson
  import opened PyText
  import opened Folds
  import opened Strings
  import RunFormat

  // ---------------------------------------------------------------------
  // load_topics

  /** The topic a line contributes: none for a blank line or one that is not JSON. */
  function LineTopic(line: string, loads: string -> Option<Json>): seq<Json>
  {
    var t := Strip(line);
    if t == [] then []
    else match loads(t)
      case None => []
      case Some(topic) => [topic]
  }

  /** The topics of a file's lines, in file order. */
  function Topics(lines: seq<string>, loads: string -> Option<Json>): seq<Json>
  {
    FlatMap(lines, line => LineTopic(line, loads))
  }

  /** The topics of two stretches of lines are those of the first followed by those of the second. */
  lemma TopicsJoin(a: seq<string>, b: seq<string>, loads: string -> Option<Json>)
    ensures Topics(a + b, loads) == Topics(a, loads) + Topics(b, loads)
  {
    FlatMapAppend(a, b, line => LineTopic(line, loads));
  }

  /** A topic is loaded exactly when some non-blank line parses to it after stripping. */
  lemma TopicsFrom(lines: seq<string>, loads: string -> Option<Json>, t: Json)
    ensures t in Topics(lines, loads) <==> exists i | 0 <= i < |lines| :: Strip(lines[i]) != [] && loads(Strip(lines[i])) == Some(t)
  {
    FlatMapIn(lines, line => LineTopic(line, loads), t);
  }

  /**
   * `load_topics(topics_file)`: `file` is the file's lines, None when it
   * cannot be read, which ends the program with status 1.
   */
  method LoadTopics(file: Option<seq<string>>, loads: string -> Option<Json>) returns (r: Result<seq<Json>, nat>)
    ensures file.None? ==> r == Err(1)
    ensures file.Some? ==> r == Ok(Topics(file.value, loads))
  {
    if file.None? {
      return Err(1);
    }
    var lines := file.value;
    var topics := [];
    var k := 0;
    while k < |lines|
      invariant k <= |lines| && topics == Topics(lines[..k], loads)
    {
      assert lines[..k + 1] == lines[..k] + [lines[k]];
      TopicsJoin(lines[..k], [lines[k]], loads);
      var line := Strip(lines[k]);
      if line != [] {
        var topic := loads(line);
        if topic.Some? {
          topics := topics + [topic.value];
        }
      }
      k := k + 1;
    }
    assert lines[..k] == lines;
    return Ok(topics);
  }

  // ---------------------------------------------------------------------
  // split_report_into_responses

  /** The characters that end a sentence. */
  predicate Terminator(c: char)
  {
    c == '.' || c == '!' || c == '?'
  }

  predicate NoTerminator(s: string)
  {
    forall i | 0 <= i < |s| :: !Terminator(s[i])
  }

  /** A finished sentence is kept, stripped, only when it is longer than 10 characters. */
  function Keep(sentence: string): seq<string>
  {
    if |Strip(sentence)| > 10 then [Strip(sentence)] else []
  }

  /** The pieces a terminator finished, unstripped, and the sentence being built, after reading `s`. */
  function Scan(s: string): (seq<string>, string)
    decreases |s|
  {
    if |s| == 0 then ([], [])
    else
      var previous := Scan(s[..|s| - 1]);
      var c := s[|s| - 1];
      var grown := previous.1 + [c];
      if Terminator(c) then (previous.0 + [grown], []) else (previous.0, grown)
  }

  /** The sentences of a report: the finished ones kept, then the non-blank remainder, stripped. */
  function Sentences(report: string): seq<string>
  {
    FlatMap(Scan(report).0, Keep) + Remainder(Scan(report).1)
  }

  /** The unfinished sentence at the end of the report is kept, stripped, unless it is blank. */
  function Remainder(rest: string): seq<string>
  {
    if Strip(rest) != [] then [Strip(rest)] else []
  }

  /** Text without a terminator finishes no sentence: all of it is being built. */
  lemma {:induction false} ScanPlain(p: string)
    requires NoTerminator(p)
    ensures Scan(p) == ([], p)
    decreases |p|
  {
    if |p| > 0 {
      var n := |p| - 1;
      assert NoTerminator(p[..n]) by {
        forall i | 0 <= i < n
          ensures !Terminator(p[..n][i])
        {
          assert p[..n][i] == p[i];
        }
      }
      ScanPlain(p[..n]);
      assert !Terminator(p[n]);
      assert Scan(p) == ([], p[..n] + [p[n]]);
      LastJoined(p);
    }
  }

  /** After a terminator the sentences start afresh: what follows is cut on its own. */
  lemma {:induction false} ScanJoin(a: string, b: string)
    requires Scan(a).1 == []
    ensures Scan(a + b) == (Scan(a).0 + Scan(b).0, Scan(b).1)
    decreases |b|
  {
    if |b| == 0 {
      assert a + b == a && Scan(a).0 + [] == Scan(a).0;
    } else {
      var n := |b| - 1;
      assert (a + b)[..|a + b| - 1] == a + b[..n];
      assert (a + b)[|a + b| - 1] == b[n];
      ScanJoin(a, b[..n]);
      var before := Scan(b[..n]);
      var grown := before.1 + [b[n]];
      if Terminator(b[n]) {
        assert Scan(a).0 + before.0 + [grown] == Scan(a).0 + (before.0 + [grown]);
      }
    }
  }

  /** One sentence and its terminator is one piece. */
  lemma ScanSentence(p: string, c: char)
    requires NoTerminator(p) && Terminator(c)
    ensures Scan(p + [c]) == ([p + [c]], [])
  {
    ScanPlain(p);
    assert (p + [c])[..|p|] == p;
    assert [] + [p + [c]] == [p + [c]];
  }

  /**
   * A report cut after a terminator: its sentences are those of the part
   * before the cut followed by those of the part after.
   */
  lemma SentencesJoin(a: string, b: string)
    requires a != [] && Terminator(a[|a| - 1])
    ensures Sentences(a + b) == FlatMap(Scan(a).0, Keep) + Sentences(b)
  {
    ScanJoin(a, b);
    FlatMapAppend(Scan(a).0, Scan(b).0, Keep);
    Associate(FlatMap(Scan(a).0, Keep), FlatMap(Scan(b).0, Keep), Remainder(Scan(b).1));
  }

  /** A non-empty sequence is its front followed by its last element. */
  lemma LastJoined<T>(s: seq<T>)
    requires s != []
    ensures s[..|s| - 1] + [s[|s| - 1]] == s
  {
  }

  lemma Associate<T>(x: seq<T>, y: seq<T>, z: seq<T>)
    ensures x + y + z == x + (y + z)
  {
  }

  /** A sentence with its terminator is kept, stripped, exactly when it is longer than 10 characters then. */
  lemma SentenceKept(p: string, c: char)
    requires NoTerminator(p) && Terminator(c)
    ensures Sentences(p + [c]) == (if |Strip(p + [c])| > 10 then [Strip(p + [c])] else [])
  {
    var g := p + [c];
    ScanSentence(p, c);
    assert FlatMap([g], Keep) == Keep(g) by {
      assert [g][..0] == [];
    }
    assert Strip([]) == [];
  }

  /** A sentence that a terminator finished: longer than 10, ending with its only terminator. */
  predicate Finished(s: string)
  {
    |s| > 10 && Terminator(s[|s| - 1]) && NoTerminator(s[..|s| - 1])
  }

  /** A piece: text ending with its only terminator. */
  predicate Piece(s: string)
  {
    s != [] && Terminator(s[|s| - 1]) && NoTerminator(s[..|s| - 1])
  }

  /** Stripping a piece keeps its terminator at the end and adds none. */
  lemma KeepFinished(g: string)
    requires Piece(g)
    ensures forall k | k in Keep(g) :: Finished(k)
  {
    if |Strip(g)| > 10 {
      var i := StripTail(g);
      var k := Strip(g);
      assert k[|k| - 1] == g[|g| - 1];
      var body := k[..|k| - 1];
      forall j | 0 <= j < |body|
        ensures !Terminator(body[j])
      {
        assert body[j] == g[..|g| - 1][i + j];
      }
    }
  }

  /** Text ending in a non-space character loses only its leading whitespace to stripping. */
  lemma StripTail(g: string) returns (i: nat)
    requires g != [] && !IsSpace(g[|g| - 1])
    ensures i <= |g| && Strip(g) == g[i..]
  {
    i := StripSlice(g);
  }

  /** Every finished piece has that shape, and the sentence being built has no terminator. */
  lemma {:induction false} ScanShape(s: string)
    ensures forall k | k in Scan(s).0 :: Piece(k)
    ensures NoTerminator(Scan(s).1)
    decreases |s|
  {
    if |s| > 0 {
      var previous := Scan(s[..|s| - 1]);
      ScanShape(s[..|s| - 1]);
      var c := s[|s| - 1];
      if Terminator(c) {
        var g := previous.1 + [c];
        assert g[..|g| - 1] == previous.1;
      }
    }
  }

  /**
   * The sentences of a report are finished sentences, except possibly the
   * last, which is the stripped remainder: non-empty and without a terminator.
   */
  lemma SentencesShape(report: string)
    ensures forall i | 0 <= i < |Sentences(report)| - 1 :: Finished(Sentences(report)[i])
    ensures Sentences(report) != [] ==> var last := Sentences(report)[|Sentences(report)| - 1];
              Finished(last) || (last != [] && NoTerminator(last))
  {
    var (pieces, rest) := Scan(report);
    var kept := FlatMap(pieces, Keep);
    ScanShape(report);
    forall k | k in kept
      ensures Finished(k)
    {
      FlatMapIn(pieces, Keep, k);
      var i :| 0 <= i < |pieces| && k in Keep(pieces[i]);
      KeepFinished(pieces[i]);
    }
    if Strip(rest) != [] {
      var i := StripSlice(rest);
      forall j | 0 <= j < |Strip(rest)|
        ensures !Terminator(Strip(rest)[j])
      {
        assert Strip(rest)[j] == rest[i + j];
      }
    }
    var ss := Sentences(report);
    forall i | 0 <= i < |ss| - 1
      ensures Finished(ss[i])
    {
      assert ss[i] in kept;
    }
    if ss != [] && Strip(rest) == [] {
      assert ss[|ss| - 1] in kept;
    }
  }

  /** The citation of sentence `i`: the topic id, `#`, the position, `_` and the hash reduced below 10^9. */
  function Citation(docid: string, i: nat, sentence: string, hash: string -> int): string
  {
    docid + "#" + ToDecimal(i) + "_" + ToDecimal(hash(sentence) % 1000000000)
  }

  /** The response of sentence `i`: its text, and a citation only among the first three. */
  function Response(i: nat, sentence: string, docid: string, hash: string -> int): Json
  {
    JObject([("text", JString(sentence)),
             ("citations", JArray(if i < 3 then [JString(Citation(docid, i, sentence, hash))] else []))])
  }

  /** The responses of the sentences, in order. */
  function ResponsesOf(sentences: seq<string>, docid: string, hash: string -> int): seq<Json>
  {
    Numbered(sentences, (i, s) => Response(i, s, docid, hash))
  }

  /** One response per sentence, the i-th for the i-th sentence. */
  lemma ResponsesAt(sentences: seq<string>, docid: string, hash: string -> int)
    ensures |ResponsesOf(sentences, docid, hash)| == |sentences|
    ensures forall i | 0 <= i < |sentences| :: ResponsesOf(sentences, docid, hash)[i] == Response(i, sentences[i], docid, hash)
  {
    NumberedAt(sentences, (i, s) => Response(i, s, docid, hash));
  }

  /** Each response holds its sentence as text, and one citation exactly among the first three. */
  lemma ResponseContent(i: nat, sentence: string, docid: string, hash: string -> int)
    ensures Get(Response(i, sentence, docid, hash), "text") == Some(JString(sentence))
    ensures Get(Response(i, sentence, docid, hash), "citations").Some?
    ensures var cs := Get(Response(i, sentence, docid, hash), "citations").value;
            cs.JArray? && |cs.items| == (if i < 3 then 1 else 0) && (i < 3 ==> cs.items[0] == JString(Citation(docid, i, sentence, hash)))
  {
    var r := Response(i, sentence, docid, hash);
    assert r.members[1].0 == "citations" && r.members[0].0 != "citations";
  }

  /** Citations of different positions differ, whatever the hashes. */
  lemma CitationsDistinct(docid: string, i: nat, s: string, j: nat, t: string, hash: string -> int)
    requires i != j
    ensures Citation(docid, i, s, hash) != Citation(docid, j, t, hash)
  {
    var a, b := ToDecimal(i), ToDecimal(j);
    var x, y := ToDecimal(hash(s) % 1000000000), ToDecimal(hash(t) % 1000000000);
    var pre := docid + "#";
    var u, v := pre + a + "_" + x, pre + b + "_" + y;
    if |a| == |b| {
      ValueOfToDecimal(i);
      ValueOfToDecimal(j);
      assert a != b;
      var k :| 0 <= k < |a| && a[k] != b[k];
      assert u[|pre| + k] == a[k] && v[|pre| + k] == b[k];
    } else if |a| < |b| {
      assert u[|pre| + |a|] == '_' && v[|pre| + |a|] == b[|a|] && IsDigit(b[|a|]);
    } else {
      assert v[|pre| + |b|] == '_' && u[|pre| + |b|] == a[|b|] && IsDigit(a[|b|]);
    }
  }

  /**
   * `split_report_into_responses(report, topic_docid)`: the sentences are
   * cut character by character, then numbered into responses.
   */
  method SplitReportIntoResponses(report: string, docid: string, hash: string -> int) returns (responses: seq<Json>)
    ensures responses == ResponsesOf(Sentences(report), docid, hash)
  {
    var sentences := CutSentences(report);
    responses := NumberResponses(sentences, docid, hash);
  }

  /** Reading one more character: it grows the sentence being built, and a terminator finishes it. */
  lemma ScanNext(report: string, k: nat)
    requires k < |report|
    ensures var (pieces, current) := Scan(report[..k]);
            var grown := current + [report[k]];
            Scan(report[..k + 1]) == if Terminator(report[k]) then (pieces + [grown], []) else (pieces, grown)
  {
    assert report[..k + 1][..k] == report[..k];
  }

  /** The sentence loop of `split_report_into_responses`. */
  method CutSentences(report: string) returns (sentences: seq<string>)
    ensures sentences == Sentences(report)
  {
    sentences := [];
    var current := [];
    var k := 0;
    while k < |report|
      invariant k <= |report| && sentences == FlatMap(Scan(report[..k]).0, Keep) && current == Scan(report[..k]).1
    {
      var c := report[k];
      ScanNext(report, k);
      current := current + [c];
      if Terminator(c) {
        FlatMapSnoc(Scan(report[..k]).0, current, Keep);
        var sentence := Strip(current);
        if sentence != [] && |sentence| > 10 {
          sentences := sentences + [sentence];
        }
        current := [];
      }
      k := k + 1;
    }
    assert report[..k] == report;
    if Strip(current) != [] {
      sentences := sentences + [Strip(current)];
    }
  }

  /** The response loop of `split_report_into_responses`. */
  method NumberResponses(sentences: seq<string>, docid: string, hash: string -> int) returns (responses: seq<Json>)
    ensures responses == ResponsesOf(sentences, docid, hash)
  {
    responses := [];
    var i := 0;
    while i < |sentences|
      invariant i <= |sentences| && responses == ResponsesOf(sentences[..i], docid, hash)
    {
      assert sentences[..i + 1][..i] == sentences[..i];
      var citations := [];
      if i < 3 {
        citations := [JString(Citation(docid, i, sentences[i], hash))];
      }
      responses := responses + [JObject([("text", JString(sentences[i])), ("citations", JArray(citations))])];
      i := i + 1;
    }
    assert sentences[..i] == sentences;
  }

  // ---------------------------------------------------------------------
  // validate_responses

  /**
   * What one response gives the check: an exception, False (None), or its
   * number of words. A dict is looked up; for a list or a string `in` tests
   * elements or substrings and the subscript that follows raises TypeError;
   * any other value raises at the first `in`.
   */
  function Verdict(r: Json): Result<Option<nat>, PyError>
  {
    match r
    case JObject(ms) =>
      if Lookup(ms, "text").None? || Lookup(ms, "citations").None? then Ok(None)
      else FieldsVerdict(Lookup(ms, "text").value, Lookup(ms, "citations").value)
    case JArray(items) => if JString("text") in items && JString("citations") in items then Err(TypeError) else Ok(None)
    case JString(s) => if Contains(s, "text") && Contains(s, "citations") then Err(TypeError) else Ok(None)
    case _ => Err(TypeError)
  }

  /** The verdict on a dict holding both fields: `text.split()` needs a string, then the citations are checked. */
  function FieldsVerdict(text: Json, cs: Json): Result<Option<nat>, PyError>
  {
    if !text.JString? then Err(AttributeError)
    else if !cs.JArray? || |cs.items| > RunFormat.CitationLimit || !AllStrings(cs.items) then Ok(None)
    else Ok(Some(|Words(text.s)|))
  }

  predicate AllStrings(cs: seq<Json>)
  {
    forall j | 0 <= j < |cs| :: cs[j].JString?
  }

  /** Verdicts taken in order: the first exception or failure, else the total of the counts. */
  function Tally<A, E>(xs: seq<A>, f: A -> Result<Option<nat>, E>): Result<Option<nat>, E>
    decreases |xs|
  {
    if |xs| == 0 then Ok(Some(0))
    else match Tally(xs[..|xs| - 1], f)
      case Err(e) => Err(e)
      case Ok(None) => Ok(None)
      case Ok(Some(total)) =>
        match f(xs[|xs| - 1])
        case Err(e) => Err(e)
        case Ok(None) => Ok(None)
        case Ok(Some(w)) => Ok(Some(total + w))
  }

  /** Once a prefix raised or failed, the rest is not looked at. */
  lemma {:induction false} TallyStops<A, E>(xs: seq<A>, f: A -> Result<Option<nat>, E>, n: nat)
    requires n <= |xs| && !(Tally(xs[..n], f).Ok? && Tally(xs[..n], f).value.Some?)
    ensures Tally(xs, f) == Tally(xs[..n], f)
    decreases |xs|
  {
    if n < |xs| {
      var m := |xs| - 1;
      assert xs[..m][..n] == xs[..n];
      TallyStops(xs[..m], f, n);
    } else {
      assert xs[..n] == xs;
    }
  }

  /** One more verdict after a passing prefix: it ends the tally or adds its count. */
  lemma TallyNext<A, E>(xs: seq<A>, f: A -> Result<Option<nat>, E>, k: nat, total: nat, v: Result<Option<nat>, E>)
    requires k < |xs| && Tally(xs[..k], f) == Ok(Some(total)) && f(xs[k]) == v
    ensures v.Err? ==> Tally(xs, f) == Err(v.error)
    ensures v == Ok(None) ==> Tally(xs, f) == Ok(None)
    ensures v.Ok? && v.value.Some? ==> Tally(xs[..k + 1], f) == Ok(Some(total + v.value.value))
  {
    assert xs[..k + 1][..k] == xs[..k];
    if !(v.Ok? && v.value.Some?) {
      TallyStops(xs, f, k + 1);
    }
  }

  /**
   * When the verdict passes exactly the elements satisfying `P`, counting
   * `w` for them, the tally passes exactly when all do, with the total of `w`.
   */
  lemma {:induction false} TallyAll<A, E>(xs: seq<A>, f: A -> Result<Option<nat>, E>, P: A -> bool, w: A -> nat)
    requires forall x :: (f(x).Ok? && f(x).value.Some?) <==> P(x)
    requires forall x :: P(x) ==> f(x) == Ok(Some(w(x)))
    ensures (Tally(xs, f).Ok? && Tally(xs, f).value.Some?) <==> forall i | 0 <= i < |xs| :: P(xs[i])
    ensures (forall i | 0 <= i < |xs| :: P(xs[i])) ==> Tally(xs, f) == Ok(Some(Total(xs, w)))
    decreases |xs|
  {
    if |xs| > 0 {
      var n := |xs| - 1;
      var init := xs[..n];
      TallyAll(init, f, P, w);
      if forall i | 0 <= i < n :: P(init[i]) {
        if P(xs[n]) {
          forall i | 0 <= i < |xs|
            ensures P(xs[i])
          {
            if i < n {
              assert init[i] == xs[i];
            } else {
              assert i == n;
            }
          }
        }
      } else {
        var i :| 0 <= i < n && !P(init[i]);
        assert init[i] == xs[i];
      }
    }
  }

  /** The responses checked in order: the first exception or False, else the total of words. */
  function Checked(rs: seq<Json>): Result<Option<nat>, PyError>
  {
    Tally(rs, Verdict)
  }

  /** One more response after a passing prefix: its verdict ends the check or adds its words. */
  lemma CheckedNext(rs: seq<Json>, k: nat, total: nat, v: Result<Option<nat>, PyError>)
    requires k < |rs| && Checked(rs[..k]) == Ok(Some(total)) && Verdict(rs[k]) == v
    ensures v.Err? ==> Checked(rs) == Err(v.error)
    ensures v == Ok(None) ==> Checked(rs) == Ok(None)
    ensures v.Ok? && v.value.Some? ==> Checked(rs[..k + 1]) == Ok(Some(total + v.value.value))
  {
    TallyNext(rs, Verdict, k, total, v);
  }

  /** `validate_responses(responses)`: its verdict, or the exception it raises. */
  function Validated(rs: seq<Json>): Result<bool, PyError>
  {
    match Checked(rs)
    case Err(e) => Err(e)
    case Ok(None) => Ok(false)
    case Ok(Some(total)) => Ok(total <= RunFormat.WordLimit)
  }

  /** A response passes exactly when it conforms to the run format, and then adds the words of its text. */
  lemma VerdictConforms(r: Json)
    ensures (Verdict(r).Ok? && Verdict(r).value.Some?) <==> RunFormat.ResponseConforms(r)
    ensures RunFormat.ResponseConforms(r) ==> Verdict(r).value.value == RunFormat.ResponseWords(r)
  {
    if r.JObject? {
      var t, c := Lookup(r.members, "text"), Lookup(r.members, "citations");
      if t.Some? && c.Some? {
        assert Verdict(r) == FieldsVerdict(t.value, c.value);
        assert Get(r, "text") == t && Get(r, "citations") == c;
      } else {
        assert Verdict(r) == Ok(None);
        assert !RunFormat.ResponseConforms(r);
      }
    } else {
      assert !RunFormat.ResponseConforms(r);
      assert Verdict(r).Err? || Verdict(r) == Ok(None);
    }
  }

  /** The run format's word count is the total of the responses' words. */
  lemma {:induction false} TotalWordsTotal(rs: seq<Json>)
    ensures RunFormat.TotalWords(rs) == Total(rs, RunFormat.ResponseWords)
    decreases |rs|
  {
    if |rs| > 0 {
      TotalWordsTotal(rs[..|rs| - 1]);
    }
  }

  /** The responses all pass exactly when all conform, and then the total is the run format's word count. */
  lemma CheckedConforms(rs: seq<Json>)
    ensures (Checked(rs).Ok? && Checked(rs).value.Some?) <==> forall i | 0 <= i < |rs| :: RunFormat.ResponseConforms(rs[i])
    ensures (forall i | 0 <= i < |rs| :: RunFormat.ResponseConforms(rs[i])) ==> Checked(rs) == Ok(Some(RunFormat.TotalWords(rs)))
  {
    forall r
      ensures (Verdict(r).Ok? && Verdict(r).value.Some?) <==> RunFormat.ResponseConforms(r)
      ensures RunFormat.ResponseConforms(r) ==> Verdict(r) == Ok(Some(RunFormat.ResponseWords(r)))
    {
      VerdictConforms(r);
    }
    TallyAll(rs, Verdict, RunFormat.ResponseConforms, RunFormat.ResponseWords);
    TotalWordsTotal(rs);
  }

  /**
   * The check passes exactly when every response conforms to the run format
   * and the texts hold at most 250 words.
   */
  lemma ValidatedIff(rs: seq<Json>)
    ensures Validated(rs) == Ok(true) <==>
              (forall i | 0 <= i < |rs| :: RunFormat.ResponseConforms(rs[i])) && RunFormat.TotalWords(rs) <= RunFormat.WordLimit
  {
    CheckedConforms(rs);
    if forall i | 0 <= i < |rs| :: RunFormat.ResponseConforms(rs[i]) {
      assert Checked(rs) == Ok(Some(RunFormat.TotalWords(rs)));
    } else {
      assert !(Checked(rs).Ok? && Checked(rs).value.Some?);
    }
  }

  /** Unlike the run format, the check passes an empty list of responses. */
  lemma ValidatedEmpty()
    ensures Validated([]) == Ok(true) && !RunFormat.ResponsesConform(JArray([]))
  {
    assert Checked([]) == Ok(Some(0));
  }

  /** The citation loop: whether every citation is a string. */
  method CitationsAreStrings(cs: seq<Json>) returns (ok: bool)
    ensures ok <==> AllStrings(cs)
  {
    var j := 0;
    while j < |cs|
      invariant j <= |cs| && AllStrings(cs[..j])
    {
      if !cs[j].JString? {
        assert cs[..|cs|][j] == cs[j];
        return false;
      }
      assert cs[..j + 1] == cs[..j] + [cs[j]];
      j := j + 1;
    }
    assert cs[..j] == cs;
    return true;
  }

  /** One pass of the loop: the verdict on one response. */
  method CheckResponse(r: Json) returns (v: Result<Option<nat>, PyError>)
    ensures v == Verdict(r)
  {
    var hasText := In("text", r);
    if hasText.Err? {
      return Err(hasText.error);
    }
    if !hasText.value {
      return Ok(None);
    }
    // `in` raises by the kind of value only, and it did not for "text".
    var hasCitations := In("citations", r).value;
    if !hasCitations {
      return Ok(None);
    }
    var text := Index(r, "text");
    if text.Err? {
      return Err(text.error);
    }
    if !text.value.JString? {
      return Err(AttributeError);
    }
    var wordCount := |Words(text.value.s)|;
    // Index(r, "text") succeeded, so r is a dict holding "citations".
    var citations := Index(r, "citations").value;
    if !citations.JArray? || |citations.items| > RunFormat.CitationLimit {
      return Ok(None);
    }
    var ok := CitationsAreStrings(citations.items);
    if !ok {
      return Ok(None);
    }
    return Ok(Some(wordCount));
  }

  /** The pass over response `k` after a passing prefix: it ends the check or adds its words. */
  method CheckAt(rs: seq<Json>, k: nat, ghost total: nat) returns (v: Result<Option<nat>, PyError>)
    requires k < |rs| && Checked(rs[..k]) == Ok(Some(total))
    ensures v.Err? ==> Checked(rs) == Err(v.error)
    ensures v == Ok(None) ==> Checked(rs) == Ok(None)
    ensures v.Ok? && v.value.Some? ==> Checked(rs[..k + 1]) == Ok(Some(total + v.value.value))
  {
    v := CheckResponse(rs[k]);
    CheckedNext(rs, k, total, v);
  }

  /** `validate_responses(responses)`. */
  method ValidateResponses(rs: seq<Json>) returns (r: Result<bool, PyError>)
    ensures r == Validated(rs)
  {
    var totalWords: nat := 0;
    var k := 0;
    while k < |rs|
      invariant k <= |rs| && Checked(rs[..k]) == Ok(Some(totalWords))
    {
      var v := CheckAt(rs, k, totalWords);
      if v.Err? {
        return Err(v.error);
      }
      if v.value.None? {
        return Ok(false);
      }
      totalWords := totalWords + v.value.value;
      k := k + 1;
    }
    assert rs[..k] == rs;
    return Ok(totalWords <= RunFormat.WordLimit);
  }

  /**
   * The responses of any report pass the check exactly when their texts
   * hold at most 250 words: their shape always conforms.
   */
  lemma SplitValidated(report: string, docid: string, hash: string -> int)
    ensures var rs := ResponsesOf(Sentences(report), docid, hash);
            Validated(rs) == Ok(RunFormat.TotalWords(rs) <= RunFormat.WordLimit)
  {
    var rs := ResponsesOf(Sentences(report), docid, hash);
    ResponsesConform(Sentences(report), docid, hash);
    CheckedConforms(rs);
  }

  /** Every response built from sentences has the run format's shape. */
  lemma ResponsesConform(ss: seq<string>, docid: string, hash: string -> int)
    ensures forall i | 0 <= i < |ResponsesOf(ss, docid, hash)| :: RunFormat.ResponseConforms(ResponsesOf(ss, docid, hash)[i])
  {
    var rs := ResponsesOf(ss, docid, hash);
    ResponsesAt(ss, docid, hash);
    forall i | 0 <= i < |rs|
      ensures RunFormat.ResponseConforms(rs[i])
    {
      ResponseContent(i, ss[i], docid, hash);
    }
  }

  // ---------------------------------------------------------------------
  // create_run_entry and the loop over the topics

  /** `create_run_entry(topic, responses, team_id, run_id, run_type, use_starter_kit)`. */
  function RunEntry(topic: Json, responses: seq<Json>, teamId: string, runId: string, runType: string,
                    useStarterKit: int): Result<Json, PyError>
  {
    match GetOr(topic, "docid", JString("unknown"))
    case Err(e) => Err(e)
    case Ok(topicId) =>
      Ok(JObject([("metadata", Metadata(teamId, runId, topicId, runType, useStarterKit)), ("responses", JArray(responses))]))
  }

  /** The entry's metadata object. */
  function Metadata(teamId: string, runId: string, topicId: Json, runType: string, useStarterKit: int): Json
  {
    JObject([("team_id", JString(teamId)), ("run_id", JString(runId)), ("topic_id", topicId),
             ("type", JString(runType)), ("use_starter_kit", JInt(useStarterKit))])
  }

  /** The arguments that make the metadata conform: a known run type, a 0/1 starter-kit flag and a string topic id. */
  predicate GoodMetadata(topicId: Json, runType: string, useStarterKit: int)
  {
    (runType == "automatic" || runType == "manual") && (useStarterKit == 0 || useStarterKit == 1) && topicId.JString?
  }

  /** The metadata conforms to the run format exactly for good arguments. */
  lemma MetadataConforms(teamId: string, runId: string, topicId: Json, runType: string, useStarterKit: int)
    ensures RunFormat.MetadataConforms(Metadata(teamId, runId, topicId, runType, useStarterKit)) <==>
            GoodMetadata(topicId, runType, useStarterKit)
  {
    var m := Metadata(teamId, runId, topicId, runType, useStarterKit);
    var ms := m.members;
    forall i | 0 <= i < 5
      ensures Get(m, ms[i].0) == Some(ms[i].1)
    {
      LookupUnique(ms, i);
    }
    assert ms[0].0 == "team_id" && ms[1].0 == "run_id" && ms[2].0 == "topic_id" && ms[3].0 == "type" && ms[4].0 == "use_starter_kit";
    RunFormat.MetadataConformsFields(m);
  }

  /**
   * A dict topic gives an entry whose topic id is its `docid`, or "unknown";
   * the entry conforms to the run format exactly when the arguments are
   * good and the responses conform as a list.
   */
  lemma RunEntryConforms(topic: Json, responses: seq<Json>, teamId: string, runId: string, runType: string, useStarterKit: int)
    ensures RunEntry(topic, responses, teamId, runId, runType, useStarterKit).Err? <==> !topic.JObject?
    ensures topic.JObject? ==>
              var topicId := if Get(topic, "docid").Some? then Get(topic, "docid").value else JString("unknown");
              var entry := RunEntry(topic, responses, teamId, runId, runType, useStarterKit).value;
              entry == JObject([("metadata", Metadata(teamId, runId, topicId, runType, useStarterKit)), ("responses", JArray(responses))]) &&
              (RunFormat.Conforming(entry) <==> GoodMetadata(topicId, runType, useStarterKit) && RunFormat.ResponsesConform(JArray(responses)))
  {
    if topic.JObject? {
      var topicId := if Get(topic, "docid").Some? then Get(topic, "docid").value else JString("unknown");
      var entry := RunEntry(topic, responses, teamId, runId, runType, useStarterKit).value;
      MetadataConforms(teamId, runId, topicId, runType, useStarterKit);
      assert Get(entry, "responses") == Some(JArray(responses)) by {
        assert entry.members[1] == ("responses", JArray(responses));
      }
      assert Get(entry, "metadata") == Some(Metadata(teamId, runId, topicId, runType, useStarterKit)) by {
        assert entry.members[0].1 == Metadata(teamId, runId, topicId, runType, useStarterKit) && entry.members[1].0 != "metadata";
      }
    }
  }

  /** The topic id the citations show: a string id as is, another value as Python's `str` renders it. */
  function DocidText(topicId: Json, render: Json -> string): string
  {
    if topicId.JString? then topicId.s else render(topicId)
  }

  /**
   * One topic of `generate_runs_async`: the report is split, checked and
   * turned into an entry; a topic whose check fails or raises is skipped
   * (None), as is one that is not a dict.
   */
  function TopicRun(topic: Json, report: string, hash: string -> int, render: Json -> string,
                    teamId: string, runId: string, runType: string, useStarterKit: int): Option<Json>
  {
    match GetOr(topic, "docid", JString("unknown"))
    case Err(_) => None
    case Ok(topicId) =>
      var responses := ResponsesOf(Sentences(report), DocidText(topicId, render), hash);
      if Validated(responses) != Ok(true) then None
      else match RunEntry(topic, responses, teamId, runId, runType, useStarterKit)
        case Err(_) => None
        case Ok(entry) => Some(entry)
  }

  /**
   * An entry written for a topic conforms to the run format exactly when
   * the metadata arguments are good and the report has a sentence: a report
   * with no sentence passes the check and is written with no responses.
   */
  lemma TopicRunConforms(topic: Json, report: string, hash: string -> int, render: Json -> string,
                         teamId: string, runId: string, runType: string, useStarterKit: int)
    requires TopicRun(topic, report, hash, render, teamId, runId, runType, useStarterKit).Some?
    ensures var entry := TopicRun(topic, report, hash, render, teamId, runId, runType, useStarterKit).value;
            var topicId := if Get(topic, "docid").Some? then Get(topic, "docid").value else JString("unknown");
            RunFormat.Conforming(entry) <==> GoodMetadata(topicId, runType, useStarterKit) && Sentences(report) != []
  {
    var topicId := if Get(topic, "docid").Some? then Get(topic, "docid").value else JString("unknown");
    var ss := Sentences(report);
    var responses := ResponsesOf(ss, DocidText(topicId, render), hash);
    RunEntryConforms(topic, responses, teamId, runId, runType, useStarterKit);
    ValidatedIff(responses);
    ResponsesAt(ss, DocidText(topicId, render), hash);
  }

  /**
   * What one topic adds to the run: its entry, or nothing when it fails.
   * `report` is `generate_report_for_topic`, None when it raises, which the
   * per-topic `except` turns into a skipped topic.
   */
  function TopicEntries(topic: Json, report: Json -> Option<string>, hash: string -> int, render: Json -> string,
                        teamId: string, runId: string, runType: string, useStarterKit: int): seq<Json>
  {
    match report(topic)
    case None => []
    case Some(text) =>
      match TopicRun(topic, text, hash, render, teamId, runId, runType, useStarterKit)
      case None => []
      case Some(entry) => [entry]
  }

  /** `TopicEntries` with the run's settings fixed. */
  function EntriesOf(report: Json -> Option<string>, hash: string -> int, render: Json -> string,
                     teamId: string, runId: string, runType: string, useStarterKit: int): Json -> seq<Json>
  {
    t => TopicEntries(t, report, hash, render, teamId, runId, runType, useStarterKit)
  }

  /** The entries of the topics, in topic order, skipping those that fail. */
  function Runs(topics: seq<Json>, report: Json -> Option<string>, hash: string -> int, render: Json -> string,
                teamId: string, runId: string, runType: string, useStarterKit: int): seq<Json>
  {
    FlatMap(topics, EntriesOf(report, hash, render, teamId, runId, runType, useStarterKit))
  }

  /** Every entry written passed the check: it is the entry of some topic whose report was written. */
  lemma RunsChecked(topics: seq<Json>, report: Json -> Option<string>, hash: string -> int, render: Json -> string,
                    teamId: string, runId: string, runType: string, useStarterKit: int, entry: Json) returns (i: nat)
    requires entry in Runs(topics, report, hash, render, teamId, runId, runType, useStarterKit)
    ensures i < |topics| && report(topics[i]).Some? &&
            TopicRun(topics[i], report(topics[i]).value, hash, render, teamId, runId, runType, useStarterKit) == Some(entry)
  {
    i := EntryFrom(topics, EntriesOf(report, hash, render, teamId, runId, runType, useStarterKit), entry,
                   report, hash, render, teamId, runId, runType, useStarterKit);
    TopicEntriesIn(topics[i], report, hash, render, teamId, runId, runType, useStarterKit, entry);
  }

  /** An entry of the topics' entries comes from one topic's `TopicEntries`. */
  lemma EntryFrom(topics: seq<Json>, f: Json -> seq<Json>, entry: Json, report: Json -> Option<string>, hash: string -> int,
                  render: Json -> string, teamId: string, runId: string, runType: string, useStarterKit: int) returns (i: nat)
    requires Computes(f, report, hash, render, teamId, runId, runType, useStarterKit)
    requires entry in FlatMap(topics, f)
    ensures i < |topics| && entry in TopicEntries(topics[i], report, hash, render, teamId, runId, runType, useStarterKit)
  {
    FlatMapIn(topics, f, entry);
    i :| 0 <= i < |topics| && entry in f(topics[i]);
    assert f(topics[i]) == TopicEntries(topics[i], report, hash, render, teamId, runId, runType, useStarterKit);
  }

  /** A topic contributes only the entry of its written report. */
  lemma TopicEntriesIn(topic: Json, report: Json -> Option<string>, hash: string -> int, render: Json -> string,
                       teamId: string, runId: string, runType: string, useStarterKit: int, entry: Json)
    requires entry in TopicEntries(topic, report, hash, render, teamId, runId, runType, useStarterKit)
    ensures report(topic).Some? && TopicRun(topic, report(topic).value, hash, render, teamId, runId, runType, useStarterKit) == Some(entry)
  {
  }

  /** Whether every topic is a dict, checked from the front as the loop does. */
  predicate AllDicts(topics: seq<Json>)
    decreases |topics|
  {
    |topics| == 0 || (AllDicts(topics[..|topics| - 1]) && topics[|topics| - 1].JObject?)
  }

  lemma {:induction false} AllDictsIff(topics: seq<Json>)
    ensures AllDicts(topics) <==> forall j | 0 <= j < |topics| :: topics[j].JObject?
    decreases |topics|
  {
    if |topics| > 0 {
      var n := |topics| - 1;
      AllDictsIff(topics[..n]);
      if AllDicts(topics) {
        forall j | 0 <= j < |topics|
          ensures topics[j].JObject?
        {
          if j < n {
            assert topics[..n][j] == topics[j];
          } else {
            assert j == n;
          }
        }
      } else if topics[n].JObject? {
        var j :| 0 <= j < n && !topics[..n][j].JObject?;
        assert topics[j] == topics[..n][j];
      }
    }
  }

  /** The topics `generate_runs_async` works on: `topics[:max_topics]` when `max_topics` is truthy. */
  function Chosen(topics: seq<Json>, maxTopics: Option<int>): seq<Json>
  {
    if maxTopics.Some? && maxTopics.value != 0 then Prefix(topics, maxTopics.value) else topics
  }

  /** `f` gives each topic's entries; it is looked at only where a topic's `TopicEntries` is. */
  ghost predicate Computes(f: Json -> seq<Json>, report: Json -> Option<string>, hash: string -> int, render: Json -> string,
                     teamId: string, runId: string, runType: string, useStarterKit: int)
  {
    forall t {:trigger TopicEntries(t, report, hash, render, teamId, runId, runType, useStarterKit)} ::
      f(t) == TopicEntries(t, report, hash, render, teamId, runId, runType, useStarterKit)
  }

  /**
   * The loop of `generate_runs_async` over the chosen topics. `topic.get`
   * in the progress line runs outside the per-topic `try`, so a topic that
   * is not a dict raises out of the loop and no file is written (None).
   */
  method GenerateRunEntries(topics: seq<Json>, maxTopics: Option<int>, report: Json -> Option<string>, hash: string -> int,
                            render: Json -> string, teamId: string, runId: string, runType: string, useStarterKit: int)
    returns (written: Option<seq<Json>>)
    ensures var chosen := Chosen(topics, maxTopics);
            written.None? <==> exists j | 0 <= j < |chosen| :: !chosen[j].JObject?
    ensures written.Some? ==> written.value == Runs(Chosen(topics, maxTopics), report, hash, render, teamId, runId, runType, useStarterKit)
  {
    var chosen := topics;
    if maxTopics.Some? && maxTopics.value != 0 {
      chosen := Prefix(topics, maxTopics.value);
    }
    assert chosen == Chosen(topics, maxTopics);
    ghost var f := EntriesOf(report, hash, render, teamId, runId, runType, useStarterKit);
    written := CollectRuns(chosen, report, hash, render, teamId, runId, runType, useStarterKit, f);
  }

  /** The topic loop itself, with the topics' entries given by `f`. */
  method CollectRuns(chosen: seq<Json>, report: Json -> Option<string>, hash: string -> int, render: Json -> string,
                     teamId: string, runId: string, runType: string, useStarterKit: int, ghost f: Json -> seq<Json>)
    returns (written: Option<seq<Json>>)
    requires Computes(f, report, hash, render, teamId, runId, runType, useStarterKit)
    ensures written.None? <==> exists j | 0 <= j < |chosen| :: !chosen[j].JObject?
    ensures written.Some? ==> written.value == FlatMap(chosen, f)
  {
    var runs := [];
    var i := 0;
    while i < |chosen|
      invariant i <= |chosen| && runs == FlatMap(chosen[..i], f)
      invariant AllDicts(chosen[..i])
    {
      var topic := chosen[i];
      if !topic.JObject? {
        assert !chosen[i].JObject?;
        return None;
      }
      assert chosen[..i + 1] == chosen[..i] + [topic];
      assert chosen[..i + 1][..i] == chosen[..i];
      FlatMapAppend(chosen[..i], [topic], f);
      assert FlatMap([topic], f) == f(topic);
      var more := TopicStep(topic, report, hash, render, teamId, runId, runType, useStarterKit);
      assert more == f(topic);
      runs := runs + more;
      i := i + 1;
    }
    assert chosen[..i] == chosen;
    AllDictsIff(chosen);
    return Some(runs);
  }

  /** One topic of the loop: its report, then the per-topic `try`; nothing when either fails. */
  method TopicStep(topic: Json, report: Json -> Option<string>, hash: string -> int, render: Json -> string,
                   teamId: string, runId: string, runType: string, useStarterKit: int) returns (more: seq<Json>)
    ensures more == TopicEntries(topic, report, hash, render, teamId, runId, runType, useStarterKit)
  {
    var text := report(topic);
    if text.None? {
      return [];
    }
    var entry := ProcessTopic(topic, text.value, hash, render, teamId, runId, runType, useStarterKit);
    more := if entry.Some? then [entry.value] else [];
  }

  /**
   * The body of the per-topic `try`: split the report, check the responses
   * and build the entry; a failed or raising check skips the topic (None).
   */
  method ProcessTopic(topic: Json, report: string, hash: string -> int, render: Json -> string,
                      teamId: string, runId: string, runType: string, useStarterKit: int) returns (entry: Option<Json>)
    ensures entry == TopicRun(topic, report, hash, render, teamId, runId, runType, useStarterKit)
  {
    var topicId := GetOr(topic, "docid", JString("unknown"));
    if topicId.Err? {
      return None;
    }
    var responses := SplitReportIntoResponses(report, DocidText(topicId.value, render), hash);
    var valid := ValidateResponses(responses);
    if valid != Ok(true) {
      return None;
    }
    var made := RunEntry(topic, responses, teamId, runId, runType, useStarterKit);
    entry := if made.Ok? then Some(made.value) else None;
  }
}
