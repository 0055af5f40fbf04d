// `convert_pipeline_output_to_run`: turns one pipeline output (a dict whose
// `responses` list holds `{text, citations}` dicts) into a run entry of the
// TREC-2025-DRAGUN format. Texts are stripped and blank ones dropped,
// citations default to an empty list, anything but a list becomes one, and
// only the first three are kept; going over the word limit only prints a
// warning, so the entry is returned either way.
module ConvertRun {
  import opened Wrappers
  import Strings
  import opened Json
  import opened PyJson
  import opened PyText
  import RunFormat
  import GenerateRuns

  /** The run entry, and whether the word-limit warning went to standard error. */
  datatype Conversion = Conversion(entry: Json, warned: bool)

  /** The response the converter writes: exactly the two keys, text first. */
  function Clean(text: string, citations: seq<Json>): Json
  {
    JObject([("text", JString(text)), ("citations", JArray(citations))])
  }

  /**
   * A response as the converter writes it: a stripped, non-blank text and a
   * list of at most three citations, under exactly those two keys.
   */
  predicate IsClean(c: Json)
  {
    c.JObject? && |c.members| == 2 && c.members[0].1.JString? && c.members[1].1.JArray? &&
    c.members[0].0 == "text" && c.members[1].0 == "citations" &&
    TextOf(c) != [] && Stripped(TextOf(c)) && |CitationsOf(c)| <= RunFormat.CitationLimit
  }

  /** A clean response is the one `Clean` builds from its text and citations. */
  lemma CleanShape(c: Json)
    requires IsClean(c)
    ensures c == Clean(TextOf(c), CitationsOf(c))
  {
    assert c.members == Clean(TextOf(c), CitationsOf(c)).members;
  }

  /** Text with no whitespace at either end, which is what `str.strip()` returns. */
  predicate Stripped(s: string)
  {
    s == [] || (!IsSpace(s[0]) && !IsSpace(s[|s| - 1]))
  }

  /** The text of a response in the clean form. */
  function TextOf(c: Json): string
    requires c.JObject? && |c.members| == 2 && c.members[0].1.JString?
  {
    c.members[0].1.s
  }

  /** The citations of a response in the clean form. */
  function CitationsOf(c: Json): seq<Json>
    requires c.JObject? && |c.members| == 2 && c.members[1].1.JArray?
  {
    c.members[1].1.items
  }

  /** What `get` finds in a clean response. */
  lemma LookupClean(text: string, citations: seq<Json>)
    ensures Lookup(Clean(text, citations).members, "text") == Some(JString(text))
    ensures Lookup(Clean(text, citations).members, "citations") == Some(JArray(citations))
  {
    var ms := Clean(text, citations).members;
    assert ms[..1] == [("text", JString(text))];
  }

  /** The citations the converter keeps from a `citations` value: the first three of a list, none of anything else. */
  function KeptCitations(c: Json): (cs: seq<Json>)
    ensures |cs| <= RunFormat.CitationLimit
    ensures c.JArray? ==> cs <= c.items && (|c.items| <= RunFormat.CitationLimit ==> cs == c.items)
    ensures !c.JArray? ==> cs == []
  {
    if c.JArray? then Prefix(c.items, RunFormat.CitationLimit) else []
  }

  /**
   * One pass of the loop over the responses: skipped (`None`), kept, or the
   * exception it raises. `'text' in response` raises for anything but a
   * dict, list or string; `response['text']` raises for a list or string
   * that contains `"text"`; `.strip()` raises for a text that is not a string.
   */
  function Cleaned(response: Json): Result<Option<Json>, PyError>
  {
    match In("text", response)
    case Err(e) => Err(e)
    case Ok(has) =>
      if !has then Ok(None)
      else match Index(response, "text")
      case Err(e) => Err(e)
      case Ok(t) =>
        if !t.JString? then Err(AttributeError)
        else if Strip(t.s) == [] then Ok(None)
        else match GetOr(response, "citations", JArray([]))
        case Err(e) => Err(e)
        case Ok(c) => Ok(Some(Clean(Strip(t.s), KeptCitations(c))))
  }

  /**
   * A loop that, element by element, skips it, keeps what `f` makes of it, or
   * stops with the exception `f` raises.
   */
  function Gather<A, B, E>(xs: seq<A>, f: A -> Result<Option<B>, E>): Result<seq<B>, E>
    decreases |xs|
  {
    if |xs| == 0 then Ok([])
    else match Gather(xs[..|xs| - 1], f)
      case Err(e) => Err(e)
      case Ok(kept) =>
        match f(xs[|xs| - 1])
        case Err(e) => Err(e)
        case Ok(None) => Ok(kept)
        case Ok(Some(y)) => Ok(kept + [y])
  }

  /** The loop over every response, in order, stopping at the first exception. */
  function CleanedAll(rs: seq<Json>): Result<seq<Json>, PyError>
  {
    Gather(rs, Cleaned)
  }

  /** `f` cleans each response as `Cleaned` does; it is looked at only where `Cleaned` is. */
  ghost predicate Cleans(f: Json -> Result<Option<Json>, PyError>)
  {
    forall x {:trigger Cleaned(x)} :: f(x) == Cleaned(x)
  }

  /** What `get` finds in a run entry. */
  lemma LookupEntry(metadata: Json, kept: seq<Json>)
    ensures var ms := [("metadata", metadata), ("responses", JArray(kept))];
            Lookup(ms, "metadata") == Some(metadata) && Lookup(ms, "responses") == Some(JArray(kept))
  {
    var ms := [("metadata", metadata), ("responses", JArray(kept))];
    assert ms[..1] == [("metadata", metadata)];
  }

  /** The run entry: the metadata of the arguments and the kept responses. */
  function Entry(topicId: string, teamId: string, runId: string, runType: string, useStarterKit: int,
                 kept: seq<Json>): Json
  {
    JObject([("metadata", GenerateRuns.Metadata(teamId, runId, JString(topicId), runType, useStarterKit)),
             ("responses", JArray(kept))])
  }

  /**
   * `convert_pipeline_output_to_run`: `get` on anything but a dict raises
   * `AttributeError`, a `responses` value that cannot be iterated raises
   * `TypeError`, and the warning is printed when the kept texts hold more
   * than 250 words.
   */
  function Converted(output: Json, topicId: string, teamId: string, runId: string, runType: string,
                     useStarterKit: int): Result<Conversion, PyError>
  {
    match GetOr(output, "responses", JArray([]))
    case Err(e) => Err(e)
    case Ok(responses) =>
      match Iterate(responses)
      case Err(e) => Err(e)
      case Ok(rs) =>
        match CleanedAll(rs)
        case Err(e) => Err(e)
        case Ok(kept) =>
          Ok(Conversion(Entry(topicId, teamId, runId, runType, useStarterKit, kept),
                        RunFormat.TotalWords(kept) > RunFormat.WordLimit))
  }

  method ConvertPipelineOutputToRun(output: Json, topicId: string, teamId: string, runId: string, runType: string,
                                    useStarterKit: int) returns (r: Result<Conversion, PyError>)
    ensures r == Converted(output, topicId, teamId, runId, runType, useStarterKit)
  {
    var responses := GetOr(output, "responses", JArray([]));
    if responses.Err? {
      return Err(responses.error);
    }
    var rs := Iterate(responses.value);
    if rs.Err? {
      return Err(rs.error);
    }
    var items := rs.value;
    var gathered, totalWords := CleanAll(items, Cleaned);
    if gathered.Err? {
      return Err(gathered.error);
    }
    r := Ok(Conversion(Entry(topicId, teamId, runId, runType, useStarterKit, gathered.value),
                       totalWords > RunFormat.WordLimit));
  }

  /** The `for response in responses` loop, with its running word count. */
  method CleanAll(items: seq<Json>, ghost f: Json -> Result<Option<Json>, PyError>)
    returns (r: Result<seq<Json>, PyError>, totalWords: nat)
    requires Cleans(f)
    ensures r == Gather(items, f)
    ensures r.Ok? ==> totalWords == RunFormat.TotalWords(r.value)
  {
    var kept: seq<Json> := [];
    totalWords := 0;
    for i := 0 to |items|
      invariant Gather(items[..i], f) == Ok(kept)
      invariant totalWords == RunFormat.TotalWords(kept)
    {
      GatherNext(items, f, i);
      var failed;
      failed, kept, totalWords := CleanStep(items[i], kept, totalWords, f);
      if failed.Some? {
        GatherFails(items, f, i + 1);
        return Err(failed.value), totalWords;
      }
    }
    assert items[..|items|] == items;
    r := Ok(kept);
  }

  /** One pass of the loop: the response is skipped, appended with its words counted, or fails. */
  method CleanStep(response: Json, kept: seq<Json>, totalWords: nat, ghost f: Json -> Result<Option<Json>, PyError>)
    returns (failed: Option<PyError>, kept': seq<Json>, totalWords': nat)
    requires Cleans(f) && totalWords == RunFormat.TotalWords(kept)
    ensures failed.Some? <==> f(response).Err?
    ensures failed.Some? ==> failed.value == f(response).error
    ensures failed.None? && f(response).value.None? ==> kept' == kept
    ensures failed.None? && f(response).value.Some? ==> kept' == kept + [f(response).value.value]
    ensures totalWords' == RunFormat.TotalWords(kept')
  {
    var step := CleanResponse(response, f);
    kept', totalWords' := kept, totalWords;
    if step.Err? {
      return Some(step.error), kept', totalWords';
    }
    failed := None;
    if step.value.Some? {
      var c := step.value.value;
      totalWords' := totalWords + CleanWords(kept, c);
      kept' := kept + [c];
    }
  }

  /** The body of the loop for one response. */
  method CleanResponse(response: Json, ghost f: Json -> Result<Option<Json>, PyError>)
    returns (r: Result<Option<Json>, PyError>)
    requires Cleans(f)
    ensures r == f(response)
    ensures r.Ok? && r.value.Some? ==> IsClean(r.value.value)
  {
    assert f(response) == Cleaned(response);
    var has := In("text", response);
    if has.Err? {
      return Err(has.error);
    }
    if !has.value {
      return Ok(None);
    }
    var t := Index(response, "text");
    if t.Err? {
      return Err(t.error);
    }
    if !t.value.JString? {
      return Err(AttributeError);
    }
    var text := Strip(t.value.s);
    if text == [] {
      return Ok(None);
    }
    var c := GetOr(response, "citations", JArray([]));
    var citations := if c.value.JArray? then c.value.items else [];
    citations := Prefix(citations, RunFormat.CitationLimit);
    r := Ok(Some(Clean(text, citations)));
    CleanedIsClean(response);
  }

  /** `len(text.split())` of a kept response, which is what it adds to the total. */
  function CleanWords(kept: seq<Json>, c: Json): (n: nat)
    requires IsClean(c)
    ensures RunFormat.TotalWords(kept + [c]) == RunFormat.TotalWords(kept) + n
    ensures n == |Words(TextOf(c))|
  {
    assert (kept + [c])[..|kept|] == kept;
    CleanShape(c);
    LookupClean(TextOf(c), CitationsOf(c));
    |Words(TextOf(c))|
  }

  // ---------------------------------------------------------------------
  // What the converter promises

  /** Every response that is kept is written in the clean two-key form. */
  lemma CleanedIsClean(response: Json)
    requires Cleaned(response).Ok? && Cleaned(response).value.Some?
    ensures IsClean(Cleaned(response).value.value)
  {
    var t := Index(response, "text").value;
    var c := GetOr(response, "citations", JArray([])).value;
    assert Cleaned(response).value.value == Clean(Strip(t.s), KeptCitations(c));
  }

  /**
   * Which responses the loop keeps, skips and fails on: kept exactly when it
   * is a dict with a non-blank string text, and then with that text stripped
   * and the first three of its citations; skipped when it has no `text`
   * (or only a blank one); an exception for a value that is not a container,
   * a list or string containing `"text"`, or a text that is not a string.
   */
  lemma CleanedCases(response: Json)
    ensures Cleaned(response).Err? <==>
              !(response.JObject? || response.JArray? || response.JString?) ||
              (response.JArray? && JString("text") in response.items) ||
              (response.JString? && Strings.Contains(response.s, "text")) ||
              (response.JObject? && Get(response, "text").Some? && !Get(response, "text").value.JString?)
    ensures Cleaned(response).Ok? && Cleaned(response).value.Some? <==>
              response.JObject? && Get(response, "text").Some? && Get(response, "text").value.JString? &&
              !Blank(Get(response, "text").value.s)
    ensures Cleaned(response).Ok? && Cleaned(response).value.Some? ==>
              Cleaned(response).value.value ==
                Clean(Strip(Get(response, "text").value.s),
                      KeptCitations(match Get(response, "citations") case Some(c) => c case None => JArray([])))
  {
    if response.JObject? && Get(response, "text").Some? && Get(response, "text").value.JString? {
      StripEmpty(Get(response, "text").value.s);
    }
  }

  /** One more pass of the loop. */
  lemma GatherNext<A, B, E>(xs: seq<A>, f: A -> Result<Option<B>, E>, k: nat)
    requires k < |xs| && Gather(xs[..k], f).Ok?
    ensures Gather(xs[..k + 1], f) ==
            match f(xs[k])
            case Err(e) => Err(e)
            case Ok(None) => Gather(xs[..k], f)
            case Ok(Some(y)) => Ok(Gather(xs[..k], f).value + [y])
  {
    assert xs[..k + 1][..k] == xs[..k];
  }

  /** Once the loop has failed, the elements after that one change nothing. */
  lemma {:induction false} GatherFails<A, B, E>(xs: seq<A>, f: A -> Result<Option<B>, E>, n: nat)
    requires n <= |xs| && Gather(xs[..n], f).Err?
    ensures Gather(xs, f) == Gather(xs[..n], f)
    decreases |xs| - n
  {
    if n == |xs| {
      assert xs[..n] == xs;
    } else {
      assert xs[..n + 1][..n] == xs[..n];
      GatherFails(xs, f, n + 1);
    }
  }

  /** Elements each kept as they are pass through the loop unchanged. */
  lemma {:induction false} GatherKeepsAll<A, E>(xs: seq<A>, f: A -> Result<Option<A>, E>)
    requires forall i | 0 <= i < |xs| :: f(xs[i]) == Ok(Some(xs[i]))
    ensures Gather(xs, f) == Ok(xs)
    decreases |xs|
  {
    if |xs| > 0 {
      var init := xs[..|xs| - 1];
      assert forall i | 0 <= i < |init| :: init[i] == xs[i];
      GatherKeepsAll(init, f);
      assert init + [xs[|xs| - 1]] == xs;
    }
  }

  /** Every response the loop returns is in the clean form. */
  lemma {:induction false} CleanedAllClean(rs: seq<Json>)
    requires CleanedAll(rs).Ok?
    ensures forall i | 0 <= i < |CleanedAll(rs).value| :: IsClean(CleanedAll(rs).value[i])
    decreases |rs|
  {
    if |rs| > 0 {
      CleanedAllClean(rs[..|rs| - 1]);
      var last := Cleaned(rs[|rs| - 1]);
      if last.value.Some? {
        CleanedIsClean(rs[|rs| - 1]);
      }
    }
  }

  /** The loop keeps no more elements than it is given. */
  lemma {:induction false} GatherCount<A, B, E>(xs: seq<A>, f: A -> Result<Option<B>, E>)
    requires Gather(xs, f).Ok?
    ensures |Gather(xs, f).value| <= |xs|
    decreases |xs|
  {
    if |xs| > 0 {
      GatherCount(xs[..|xs| - 1], f);
    }
  }

  /** A response already in the clean form passes through the loop body unchanged. */
  lemma CleanAgain(text: string, citations: seq<Json>)
    requires text != [] && Stripped(text) && |citations| <= RunFormat.CitationLimit
    ensures Cleaned(Clean(text, citations)) == Ok(Some(Clean(text, citations)))
  {
    var c := Clean(text, citations);
    LookupClean(text, citations);
    StripUnchanged(text);
    assert In("text", c) == Ok(true);
    assert Index(c, "text") == Ok(JString(text));
    assert GetOr(c, "citations", JArray([])) == Ok(JArray(citations));
  }

  /** Clean responses pass through the whole loop unchanged. */
  lemma CleanAllAgain(kept: seq<Json>)
    requires forall i | 0 <= i < |kept| :: IsClean(kept[i])
    ensures CleanedAll(kept) == Ok(kept)
  {
    forall i | 0 <= i < |kept|
      ensures Cleaned(kept[i]) == Ok(Some(kept[i]))
    {
      CleanShape(kept[i]);
      CleanAgain(TextOf(kept[i]), CitationsOf(kept[i]));
    }
    GatherKeepsAll(kept, Cleaned);
  }

  /**
   * Converting is idempotent: the entry it returns, converted again with
   * the same arguments, comes back unchanged, warning and all.
   */
  lemma ConvertIdempotent(output: Json, topicId: string, teamId: string, runId: string, runType: string,
                          useStarterKit: int)
    requires Converted(output, topicId, teamId, runId, runType, useStarterKit).Ok?
    ensures var conv := Converted(output, topicId, teamId, runId, runType, useStarterKit).value;
            Converted(conv.entry, topicId, teamId, runId, runType, useStarterKit) == Ok(conv)
  {
    var rs := Iterate(GetOr(output, "responses", JArray([])).value).value;
    var kept := CleanedAll(rs).value;
    CleanedAllClean(rs);
    CleanAllAgain(kept);
    var metadata := GenerateRuns.Metadata(teamId, runId, JString(topicId), runType, useStarterKit);
    LookupEntry(metadata, kept);
  }

  /** Every citation of every kept response is a string. */
  predicate StringCitations(kept: seq<Json>)
  {
    forall i | 0 <= i < |kept| :: CitesStrings(kept[i])
  }

  /** A clean response whose citations are all strings. */
  predicate CitesStrings(c: Json)
  {
    IsClean(c) && forall j | 0 <= j < |CitationsOf(c)| :: CitationsOf(c)[j].JString?
  }

  /** A clean response conforms to the run format exactly when its citations are strings. */
  lemma CleanConforms(c: Json)
    requires IsClean(c)
    ensures RunFormat.ResponseConforms(c) <==> CitesStrings(c)
  {
    CleanShape(c);
    LookupClean(TextOf(c), CitationsOf(c));
  }

  /**
   * What the entry is worth to the run-format validation: it conforms exactly when
   * the metadata arguments are good, some response was kept, every kept
   * citation is a string and the warning was not printed; the warning is
   * printed exactly when the entry's responses go over the word limit.
   */
  lemma ConvertedConforms(output: Json, topicId: string, teamId: string, runId: string, runType: string,
                          useStarterKit: int)
    requires Converted(output, topicId, teamId, runId, runType, useStarterKit).Ok?
    ensures var conv := Converted(output, topicId, teamId, runId, runType, useStarterKit).value;
            var kept := Get(conv.entry, "responses").value.items;
            (forall i | 0 <= i < |kept| :: IsClean(kept[i])) &&
            (conv.warned <==> RunFormat.TotalWords(kept) > RunFormat.WordLimit) &&
            (RunFormat.Conforming(conv.entry) <==>
               GenerateRuns.GoodMetadata(JString(topicId), runType, useStarterKit) &&
               kept != [] && StringCitations(kept) && !conv.warned)
  {
    var rs := Iterate(GetOr(output, "responses", JArray([])).value).value;
    var kept := CleanedAll(rs).value;
    CleanedAllClean(rs);
    var metadata := GenerateRuns.Metadata(teamId, runId, JString(topicId), runType, useStarterKit);
    LookupEntry(metadata, kept);
    EntryConforms(topicId, teamId, runId, runType, useStarterKit, kept);
  }

  /** An entry of clean responses conforms exactly for good metadata and some string-cited responses within the word limit. */
  lemma EntryConforms(topicId: string, teamId: string, runId: string, runType: string, useStarterKit: int,
                      kept: seq<Json>)
    requires forall i | 0 <= i < |kept| :: IsClean(kept[i])
    ensures RunFormat.Conforming(Entry(topicId, teamId, runId, runType, useStarterKit, kept)) <==>
            GenerateRuns.GoodMetadata(JString(topicId), runType, useStarterKit) &&
            kept != [] && StringCitations(kept) && RunFormat.TotalWords(kept) <= RunFormat.WordLimit
  {
    var entry := Entry(topicId, teamId, runId, runType, useStarterKit, kept);
    var metadata := GenerateRuns.Metadata(teamId, runId, JString(topicId), runType, useStarterKit);
    LookupEntry(metadata, kept);
    assert RunFormat.Conforming(entry) <==>
           RunFormat.MetadataConforms(metadata) && RunFormat.ResponsesConform(JArray(kept));
    GenerateRuns.MetadataConforms(teamId, runId, JString(topicId), runType, useStarterKit);
    CleanResponsesConform(kept);
  }

  /** Clean responses conform as a list exactly when there is one, all cite strings and the words fit. */
  lemma CleanResponsesConform(kept: seq<Json>)
    requires forall i | 0 <= i < |kept| :: IsClean(kept[i])
    ensures RunFormat.ResponsesConform(JArray(kept)) <==>
            kept != [] && StringCitations(kept) && RunFormat.TotalWords(kept) <= RunFormat.WordLimit
  {
    forall i | 0 <= i < |kept|
      ensures RunFormat.ResponseConforms(kept[i]) <==> CitesStrings(kept[i])
    {
      CleanConforms(kept[i]);
    }
  }
}
