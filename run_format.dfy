// The TREC-2025-DRAGUN run-format check (src/RunGeneration/test_run_format.py):
// `validate_run_format` lists what is wrong with one run. The run is a
// decoded JSON value; reading the runs file, printing and the sample run
// builder are not modelled.
module RunFormat {
  import opened Wrappers
  import opened Decimal
  import opened Json
  import opened PyJson
  import opened PyText

  /** One entry of the `errors` list; `Message` gives its text. */
  datatype Problem =
    | MissingMetadata
    | MissingResponses
    | MissingMetadataField(field: string)
    | NotAString(field: string)
    | BadType
    | BadStarterKit
    | ResponsesNotList
    | ResponsesEmpty
    | ResponseNotDict(i: nat)
    | MissingText(i: nat)
    | TextNotString(i: nat)
    | MissingCitations(i: nat)
    | CitationsNotList(i: nat)
    | TooManyCitations(i: nat)
    | CitationNotString(i: nat, j: nat)
    | TooManyWords(total: nat)

  /** The text appended to `errors` for a problem. */
  function Message(p: Problem): string
  {
    match p
    case MissingMetadata => "Missing 'metadata' field"
    case MissingResponses => "Missing 'responses' field"
    case MissingMetadataField(f) => "Missing metadata field: " + f
    case NotAString(f) => f + " must be a string"
    case BadType => "type must be 'automatic' or 'manual'"
    case BadStarterKit => "use_starter_kit must be 0 or 1"
    case ResponsesNotList => "responses must be a list"
    case ResponsesEmpty => "responses list cannot be empty"
    case ResponseNotDict(i) => "Response " + ToDecimal(i) + " must be a dictionary"
    case MissingText(i) => "Response " + ToDecimal(i) + " missing 'text' field"
    case TextNotString(i) => "Response " + ToDecimal(i) + " text must be a string"
    case MissingCitations(i) => "Response " + ToDecimal(i) + " missing 'citations' field"
    case CitationsNotList(i) => "Response " + ToDecimal(i) + " citations must be a list"
    case TooManyCitations(i) => "Response " + ToDecimal(i) + " has more than 3 citations"
    case CitationNotString(i, j) => "Response " + ToDecimal(i) + " citation " + ToDecimal(j) + " must be a string"
    case TooManyWords(t) => "Total word count (" + ToDecimal(t) + ") exceeds 250 word limit"
  }

  /** The metadata fields a run must carry, in the order they are checked. */
  const RequiredFields: seq<string> := ["team_id", "run_id", "topic_id", "type", "use_starter_kit"]

  /** The most words a run's responses may hold together. */
  const WordLimit: nat := 250

  /** The most citations one response may carry. */
  const CitationLimit: nat := 3

  // ---------------------------------------------------------------------
  // The specification

  /** The loop over the required fields: one problem per field `not in` the metadata. */
  function MissingIn(metadata: Json, fields: seq<string>): Result<seq<Problem>, PyError>
    decreases |fields|
  {
    if |fields| == 0 then Ok([])
    else
      var f := fields[|fields| - 1];
      match MissingIn(metadata, fields[..|fields| - 1])
      case Err(e) => Err(e)
      case Ok(ps) =>
        match In(f, metadata)
        case Err(e) => Err(e)
        case Ok(present) => Ok(if present then ps else ps + [MissingMetadataField(f)])
  }

  /** The value a present metadata field must have. */
  predicate Acceptable(field: string, v: Json)
  {
    if field == "type" then v == JString("automatic") || v == JString("manual")
    else if field == "use_starter_kit" then EqualsInt(v, 0) || EqualsInt(v, 1)
    else v.JString?
  }

  /** The problem a present field with an unacceptable value is reported as. */
  function Unacceptable(field: string): Problem
  {
    if field == "type" then BadType else if field == "use_starter_kit" then BadStarterKit else NotAString(field)
  }

  /** The type test of one field: `field in metadata and <its value is wrong>`. */
  function FieldCheck(metadata: Json, field: string): Result<seq<Problem>, PyError>
  {
    match In(field, metadata)
    case Err(e) => Err(e)
    case Ok(present) =>
      if !present then Ok([])
      else match Index(metadata, field)
        case Err(e) => Err(e)
        case Ok(v) => Ok(if Acceptable(field, v) then [] else [Unacceptable(field)])
  }

  /** Two checks run one after the other: the first exception, or both lists. */
  function Then(a: Result<seq<Problem>, PyError>, b: Result<seq<Problem>, PyError>): Result<seq<Problem>, PyError>
  {
    if a.Err? then a else if b.Err? then b else Ok(a.value + b.value)
  }

  /** The five type tests, in source order. */
  function TypeProblems(metadata: Json): Result<seq<Problem>, PyError>
  {
    Then(FieldCheck(metadata, "team_id"), Then(FieldCheck(metadata, "run_id"), Then(FieldCheck(metadata, "topic_id"),
      Then(FieldCheck(metadata, "type"), FieldCheck(metadata, "use_starter_kit")))))
  }

  /** Everything the metadata is checked for. */
  function MetadataProblems(metadata: Json): Result<seq<Problem>, PyError>
  {
    Then(MissingIn(metadata, RequiredFields), TypeProblems(metadata))
  }

  /** One problem per citation, among `cs`, that is not a string. */
  function NonStrings(i: nat, cs: seq<Json>): seq<Problem>
    decreases |cs|
  {
    if |cs| == 0 then []
    else NonStrings(i, cs[..|cs| - 1]) + (if cs[|cs| - 1].JString? then [] else [CitationNotString(i, |cs| - 1)])
  }

  /** The problems of response `i`'s text. */
  function TextProblems(i: nat, members: seq<(string, Json)>): seq<Problem>
  {
    match Lookup(members, "text")
    case None => [MissingText(i)]
    case Some(t) => if t.JString? then [] else [TextNotString(i)]
  }

  /** The problems of response `i`'s citations. */
  function CitationProblems(i: nat, members: seq<(string, Json)>): seq<Problem>
  {
    match Lookup(members, "citations")
    case None => [MissingCitations(i)]
    case Some(c) =>
      if !c.JArray? then [CitationsNotList(i)]
      else (if |c.items| > CitationLimit then [TooManyCitations(i)] else []) + NonStrings(i, c.items)
  }

  /** The problems of response `i`. */
  function ResponseProblems(i: nat, response: Json): seq<Problem>
  {
    if !response.JObject? then [ResponseNotDict(i)]
    else TextProblems(i, response.members) + CitationProblems(i, response.members)
  }

  /** The words a response adds to the total: those of a string text of a dict response. */
  function ResponseWords(response: Json): nat
  {
    if response.JObject? && Lookup(response.members, "text").Some? && Lookup(response.members, "text").value.JString?
    then |Words(Lookup(response.members, "text").value.s)|
    else 0
  }

  /** The problems of every response, in order. */
  function ResponsesProblems(rs: seq<Json>): seq<Problem>
    decreases |rs|
  {
    if |rs| == 0 then [] else ResponsesProblems(rs[..|rs| - 1]) + ResponseProblems(|rs| - 1, rs[|rs| - 1])
  }

  /** `total_words`. */
  function TotalWords(rs: seq<Json>): nat
    decreases |rs|
  {
    if |rs| == 0 then 0 else TotalWords(rs[..|rs| - 1]) + ResponseWords(rs[|rs| - 1])
  }

  /** What the `responses` value is checked for. */
  function ResponseListProblems(responses: Json): seq<Problem>
  {
    if !responses.JArray? then [ResponsesNotList]
    else if responses.items == [] then [ResponsesEmpty]
    else ResponsesProblems(responses.items) +
         (if TotalWords(responses.items) > WordLimit then [TooManyWords(TotalWords(responses.items))] else [])
  }

  /** `validate_run_format(run)`: its error list, or the exception it raises. */
  function RunProblems(run: Json): Result<seq<Problem>, PyError>
  {
    match In("metadata", run)
    case Err(e) => Err(e)
    case Ok(hasMetadata) =>
      if !hasMetadata then Ok([MissingMetadata])
      else match In("responses", run)
      case Err(e) => Err(e)
      case Ok(hasResponses) =>
        if !hasResponses then Ok([MissingResponses])
        else match Index(run, "metadata")
        case Err(e) => Err(e)
        case Ok(metadata) =>
          match MetadataProblems(metadata)
          case Err(e) => Err(e)
          case Ok(ps) =>
            match Index(run, "responses")
            case Err(e) => Err(e)
            case Ok(responses) => Ok(ps + ResponseListProblems(responses))
  }

  // ---------------------------------------------------------------------
  // What a conforming run is

  /** A response with a string text and a list of at most three string citations. */
  predicate ResponseConforms(r: Json)
  {
    r.JObject? && Get(r, "text").Some? && Get(r, "text").value.JString? &&
    Get(r, "citations").Some? && Get(r, "citations").value.JArray? &&
    |Get(r, "citations").value.items| <= CitationLimit &&
    forall j | 0 <= j < |Get(r, "citations").value.items| :: Get(r, "citations").value.items[j].JString?
  }

  /** Metadata that is a dict holding every required field with an acceptable value. */
  predicate MetadataConforms(m: Json)
  {
    m.JObject? && forall k | 0 <= k < |RequiredFields| :: Get(m, RequiredFields[k]).Some? && Acceptable(RequiredFields[k], Get(m, RequiredFields[k]).value)
  }

  /** Field `f` of the metadata is present with an acceptable value. */
  predicate FieldOk(m: Json, f: string)
  {
    Get(m, f).Some? && Acceptable(f, Get(m, f).value)
  }

  /** Conforming metadata, field by field. */
  lemma MetadataConformsFields(m: Json)
    ensures MetadataConforms(m) <==> m.JObject? && FieldOk(m, "team_id") && FieldOk(m, "run_id") && FieldOk(m, "topic_id") &&
                                     FieldOk(m, "type") && FieldOk(m, "use_starter_kit")
  {
    if m.JObject? && FieldOk(m, "team_id") && FieldOk(m, "run_id") && FieldOk(m, "topic_id") &&
       FieldOk(m, "type") && FieldOk(m, "use_starter_kit") {
      forall k | 0 <= k < |RequiredFields|
        ensures FieldOk(m, RequiredFields[k])
      {
        if k == 0 {} else if k == 1 {} else if k == 2 {} else if k == 3 {} else {}
      }
    }
    if MetadataConforms(m) {
      assert FieldOk(m, RequiredFields[0]) && FieldOk(m, RequiredFields[1]) && FieldOk(m, RequiredFields[2]) &&
             FieldOk(m, RequiredFields[3]) && FieldOk(m, RequiredFields[4]);
    }
  }

  /** A non-empty list of conforming responses holding at most 250 words together. */
  predicate ResponsesConform(rs: Json)
  {
    rs.JArray? && rs.items != [] && (forall i | 0 <= i < |rs.items| :: ResponseConforms(rs.items[i])) &&
    TotalWords(rs.items) <= WordLimit
  }

  /** A run in the TREC-2025-DRAGUN format. */
  predicate Conforming(run: Json)
  {
    run.JObject? && Get(run, "metadata").Some? && Get(run, "responses").Some? &&
    MetadataConforms(Get(run, "metadata").value) && ResponsesConform(Get(run, "responses").value)
  }

  // ---------------------------------------------------------------------
  // The validator

  /** The citation loop of one response: one problem per citation that is not a string. */
  method CheckCitations(i: nat, cs: seq<Json>) returns (ps: seq<Problem>)
    ensures ps == NonStrings(i, cs)
  {
    ps := [];
    var j := 0;
    while j < |cs|
      invariant j <= |cs| && ps == NonStrings(i, cs[..j])
    {
      assert cs[..j + 1][..j] == cs[..j];
      if !cs[j].JString? {
        ps := ps + [CitationNotString(i, j)];
      }
      j := j + 1;
    }
    assert cs[..j] == cs;
  }

  /** `validate_run_format(run)`: the problems, in the order they are appended, or the exception raised. */
  method ValidateRunFormat(run: Json) returns (r: Result<seq<Problem>, PyError>)
    ensures r == RunProblems(run)
  {
    var hasMetadata := In("metadata", run);
    if hasMetadata.Err? {
      return Err(hasMetadata.error);
    }
    if !hasMetadata.value {
      return Ok([MissingMetadata]);
    }
    // `in` raises for a kind of value, not for a key: the first test would have raised.
    var hasResponses := In("responses", run);
    if !hasResponses.value {
      return Ok([MissingResponses]);
    }
    var metadata := Index(run, "metadata");
    if metadata.Err? {
      return Err(metadata.error);
    }
    var m := metadata.value;
    var errors: seq<Problem> := [];
    var k := 0;
    while k < |RequiredFields|
      invariant k <= |RequiredFields| && MissingIn(m, RequiredFields[..k]) == Ok(errors)
    {
      assert RequiredFields[..k + 1][..k] == RequiredFields[..k];
      var present := In(RequiredFields[k], m);
      if present.Err? {
        MissingPrefixFailure(m, RequiredFields, k + 1);
        return Err(present.error);
      }
      if !present.value {
        errors := errors + [MissingMetadataField(RequiredFields[k])];
      }
      k := k + 1;
    }
    assert RequiredFields[..k] == RequiredFields;
    var checks := TypeProblems(m);
    if checks.Err? {
      return Err(checks.error);
    }
    errors := errors + checks.value;
    var responses := Index(run, "responses").value;
    var problems := CheckResponses(responses);
    errors := errors + problems;
    return Ok(errors);
  }

  /** The part of `validate_run_format` that reads `responses`. */
  method CheckResponses(responses: Json) returns (errors: seq<Problem>)
    ensures errors == ResponseListProblems(responses)
  {
    if !responses.JArray? {
      return [ResponsesNotList];
    }
    var items := responses.items;
    if items == [] {
      return [ResponsesEmpty];
    }
    errors := [];
    var totalWords := 0;
    var i := 0;
    while i < |items|
      invariant i <= |items|
      invariant errors == ResponsesProblems(items[..i]) && totalWords == TotalWords(items[..i])
    {
      assert items[..i + 1][..i] == items[..i];
      var ps := CheckResponse(i, items[i]);
      errors := errors + ps;
      totalWords := totalWords + ResponseWords(items[i]);
      i := i + 1;
    }
    assert items[..i] == items;
    if totalWords > WordLimit {
      errors := errors + [TooManyWords(totalWords)];
    }
  }

  /** The body of the response loop for response `i`. */
  method CheckResponse(i: nat, response: Json) returns (errors: seq<Problem>)
    ensures errors == ResponseProblems(i, response)
  {
    if !response.JObject? {
      return [ResponseNotDict(i)];
    }
    errors := CheckText(i, response.members);
    var ps := CheckCitationField(i, response.members);
    errors := errors + ps;
  }

  /** The text checks of response `i`. */
  method CheckText(i: nat, members: seq<(string, Json)>) returns (errors: seq<Problem>)
    ensures errors == TextProblems(i, members)
  {
    errors := [];
    var text := Lookup(members, "text");
    if text.None? {
      errors := errors + [MissingText(i)];
    } else if !text.value.JString? {
      errors := errors + [TextNotString(i)];
    }
  }

  /** The citation checks of response `i`. */
  method CheckCitationField(i: nat, members: seq<(string, Json)>) returns (errors: seq<Problem>)
    ensures errors == CitationProblems(i, members)
  {
    errors := [];
    var citations := Lookup(members, "citations");
    if citations.None? {
      errors := errors + [MissingCitations(i)];
    } else if !citations.value.JArray? {
      errors := errors + [CitationsNotList(i)];
    } else {
      if |citations.value.items| > CitationLimit {
        errors := errors + [TooManyCitations(i)];
      }
      var ps := CheckCitations(i, citations.value.items);
      errors := errors + ps;
    }
  }

  /** Once the loop over the required fields has raised, the later fields do not matter. */
  lemma {:induction false} MissingPrefixFailure(m: Json, fields: seq<string>, n: nat)
    requires n <= |fields| && MissingIn(m, fields[..n]).Err?
    ensures MissingIn(m, fields) == MissingIn(m, fields[..n])
    decreases |fields|
  {
    if n < |fields| {
      var init := fields[..|fields| - 1];
      assert init[..n] == fields[..n];
      MissingPrefixFailure(m, init, n);
    } else {
      assert fields[..n] == fields;
    }
  }

  // ---------------------------------------------------------------------
  // What the validator reports

  /** Two checks raise nothing and report nothing exactly when neither does. */
  lemma ThenNothing(a: Result<seq<Problem>, PyError>, b: Result<seq<Problem>, PyError>)
    ensures Then(a, b) == Ok([]) <==> a == Ok([]) && b == Ok([])
  {
    if a.Ok? && b.Ok? && a.value + b.value == [] {
      assert |a.value + b.value| == |a.value| + |b.value|;
    }
  }

  /** The field loop reports nothing exactly when every field is `in` the value. */
  lemma {:induction false} MissingNothing(m: Json, fields: seq<string>)
    ensures MissingIn(m, fields) == Ok([]) <==> forall k | 0 <= k < |fields| :: In(fields[k], m) == Ok(true)
    decreases |fields|
  {
    if |fields| > 0 {
      var n := |fields| - 1;
      var init := fields[..n];
      MissingNothing(m, init);
      if MissingIn(m, fields) == Ok([]) {
        assert MissingIn(m, init) == Ok([]) && In(fields[n], m) == Ok(true);
        forall k | 0 <= k < |fields|
          ensures In(fields[k], m) == Ok(true)
        {
          if k < n {
            assert init[k] == fields[k];
          } else {
            assert k == n;
          }
        }
      } else if MissingIn(m, init) != Ok([]) {
        var k :| 0 <= k < n && In(init[k], m) != Ok(true);
        assert init[k] == fields[k];
      }
    }
  }

  /** On a dict, the field loop reports exactly the absent fields, in order. */
  lemma {:induction false} MissingOfDict(m: Json, fields: seq<string>, f: string)
    requires m.JObject?
    ensures MissingIn(m, fields).Ok?
    ensures MissingMetadataField(f) in MissingIn(m, fields).value <==> f in fields && Lookup(m.members, f).None?
    ensures forall p | p in MissingIn(m, fields).value :: p.MissingMetadataField?
    decreases |fields|
  {
    if |fields| > 0 {
      var init := fields[..|fields| - 1];
      MissingOfDict(m, init, f);
      assert fields == init + [fields[|fields| - 1]];
    }
  }

  /** A dict's type test raises nothing, and reports only a present field with an unacceptable value. */
  lemma FieldCheckOfDict(m: Json, f: string)
    requires m.JObject?
    ensures FieldCheck(m, f).Ok?
    ensures FieldCheck(m, f).value == [] <==> Lookup(m.members, f).None? || Acceptable(f, Lookup(m.members, f).value)
    ensures forall p | p in FieldCheck(m, f).value :: !p.MissingMetadataField?
    ensures forall p | p in FieldCheck(m, f).value :: TypeKind(p)
  {
  }

  /** The kinds of problem a type test reports. */
  predicate TypeKind(p: Problem)
  {
    p.NotAString? || p.BadType? || p.BadStarterKit?
  }

  /** Two runs of type-test problems run one after the other are type-test problems. */
  lemma ThenKind(a: Result<seq<Problem>, PyError>, b: Result<seq<Problem>, PyError>)
    requires a.Ok? && b.Ok?
    requires forall p | p in a.value :: TypeKind(p)
    requires forall p | p in b.value :: TypeKind(p)
    ensures Then(a, b).Ok? && forall p | p in Then(a, b).value :: TypeKind(p)
  {
  }

  /** The five type tests report nothing exactly when each reports nothing. */
  lemma TypeNothing(m: Json)
    ensures TypeProblems(m) == Ok([]) <==> forall k | 0 <= k < |RequiredFields| :: FieldCheck(m, RequiredFields[k]) == Ok([])
  {
    var checks := [FieldCheck(m, "team_id"), FieldCheck(m, "run_id"), FieldCheck(m, "topic_id"), FieldCheck(m, "type"), FieldCheck(m, "use_starter_kit")];
    ThenNothing(checks[3], checks[4]);
    ThenNothing(checks[2], Then(checks[3], checks[4]));
    ThenNothing(checks[1], Then(checks[2], Then(checks[3], checks[4])));
    ThenNothing(checks[0], Then(checks[1], Then(checks[2], Then(checks[3], checks[4]))));
    assert forall k | 0 <= k < |RequiredFields| :: FieldCheck(m, RequiredFields[k]) == checks[k];
  }

  /** Only a dict can pass the field loop and the type tests together. */
  lemma MetadataNothing(m: Json)
    ensures MetadataProblems(m) == Ok([]) <==> MetadataConforms(m)
  {
    ThenNothing(MissingIn(m, RequiredFields), TypeProblems(m));
    MissingNothing(m, RequiredFields);
    TypeNothing(m);
    if m.JObject? {
      forall k | 0 <= k < |RequiredFields|
        ensures In(RequiredFields[k], m) == Ok(Get(m, RequiredFields[k]).Some?)
        ensures FieldCheck(m, RequiredFields[k]) == Ok([]) <==> Get(m, RequiredFields[k]).None? || Acceptable(RequiredFields[k], Get(m, RequiredFields[k]).value)
      {
        FieldCheckOfDict(m, RequiredFields[k]);
      }
    } else if MissingIn(m, RequiredFields) == Ok([]) {
      assert In(RequiredFields[0], m) == Ok(true);
      assert FieldCheck(m, RequiredFields[0]).Err?;
    }
  }

  /** No citation problem exactly when every citation is a string. */
  lemma {:induction false} NonStringsNothing(i: nat, cs: seq<Json>)
    ensures NonStrings(i, cs) == [] <==> forall j | 0 <= j < |cs| :: cs[j].JString?
    decreases |cs|
  {
    if |cs| > 0 {
      var init := cs[..|cs| - 1];
      NonStringsNothing(i, init);
      assert forall j | 0 <= j < |init| :: init[j] == cs[j];
    }
  }

  /** A response is reported nothing exactly when it conforms. */
  lemma ResponseNothing(i: nat, r: Json)
    ensures ResponseProblems(i, r) == [] <==> ResponseConforms(r)
  {
    if r.JObject? {
      match Lookup(r.members, "citations")
      case None =>
      case Some(c) =>
        if c.JArray? {
          NonStringsNothing(i, c.items);
        }
    }
  }

  /** The problems of all responses are the problems of each, in response order. */
  lemma {:induction false} ResponsesProblemsAt(rs: seq<Json>, p: Problem)
    ensures p in ResponsesProblems(rs) <==> exists i | 0 <= i < |rs| :: p in ResponseProblems(i, rs[i])
    decreases |rs|
  {
    if |rs| > 0 {
      var n := |rs| - 1;
      var init := rs[..n];
      ResponsesProblemsAt(init, p);
      var last := ResponseProblems(n, rs[n]);
      assert ResponsesProblems(rs) == ResponsesProblems(init) + last;
      if p in ResponsesProblems(init) {
        var i :| 0 <= i < n && p in ResponseProblems(i, init[i]);
        assert init[i] == rs[i];
      } else if p in last {
      } else {
        forall i | 0 <= i < |rs|
          ensures p !in ResponseProblems(i, rs[i])
        {
          if i < n {
            assert init[i] == rs[i];
            assert p !in ResponseProblems(i, init[i]);
          } else {
            assert i == n && p !in last;
          }
        }
      }
    }
  }

  /** The response a problem is about, if it is about one. */
  function ResponseOf(p: Problem): Option<nat>
  {
    if p.ResponseNotDict? || p.MissingText? || p.TextNotString? || p.MissingCitations? || p.CitationsNotList? ||
       p.TooManyCitations? || p.CitationNotString? then Some(p.i) else None
  }

  /** The citation problems of response `i` are about response `i`, one per index of a non-string citation. */
  lemma {:induction false} NonStringsAt(i: nat, cs: seq<Json>, p: Problem)
    ensures p in NonStrings(i, cs) <==> p.CitationNotString? && p.i == i && p.j < |cs| && !cs[p.j].JString?
    decreases |cs|
  {
    if |cs| > 0 {
      var init := cs[..|cs| - 1];
      NonStringsAt(i, init, p);
      assert forall j | 0 <= j < |init| :: init[j] == cs[j];
    }
  }

  /**
   * Every problem reported for response `i` is about response `i`; a
   * response that is not a dict is reported once and nothing else about
   * it is checked, and it adds no words.
   */
  lemma ResponseProblemsAbout(i: nat, r: Json)
    ensures forall p | p in ResponseProblems(i, r) :: ResponseOf(p) == Some(i)
    ensures !r.JObject? ==> ResponseProblems(i, r) == [ResponseNotDict(i)] && ResponseWords(r) == 0
  {
    if r.JObject? {
      match Lookup(r.members, "citations")
      case None =>
      case Some(c) =>
        if c.JArray? {
          forall p | p in NonStrings(i, c.items)
            ensures ResponseOf(p) == Some(i)
          {
            NonStringsAt(i, c.items, p);
          }
        }
    }
  }

  /**
   * The run is reported nothing exactly when it conforms: it is a dict
   * whose metadata holds the five fields with acceptable values and whose
   * responses are a non-empty list of conforming responses holding at most
   * 250 words.
   */
  lemma ValidIffConforming(run: Json)
    ensures RunProblems(run) == Ok([]) <==> Conforming(run)
  {
    if run.JObject? && Get(run, "metadata").Some? && Get(run, "responses").Some? {
      var m := Get(run, "metadata").value;
      var rs := Get(run, "responses").value;
      MetadataNothing(m);
      ResponseListNothing(rs);
      if MetadataProblems(m).Ok? {
        assert RunProblems(run) == Ok(MetadataProblems(m).value + ResponseListProblems(rs));
        NothingJoined(MetadataProblems(m).value, ResponseListProblems(rs));
      }
    } else if !run.JObject? && In("metadata", run) == Ok(true) && In("responses", run) == Ok(true) {
      assert Index(run, "metadata").Err?;
    }
  }

  /** The `responses` value is reported nothing exactly when it conforms. */
  lemma ResponseListNothing(rs: Json)
    ensures ResponseListProblems(rs) == [] <==> ResponsesConform(rs)
  {
    if rs.JArray? && rs.items != [] {
      forall i | 0 <= i < |rs.items|
        ensures ResponseProblems(i, rs.items[i]) == [] <==> ResponseConforms(rs.items[i])
      {
        ResponseNothing(i, rs.items[i]);
      }
      ResponsesNothing(rs.items);
      NothingJoined(ResponsesProblems(rs.items), if TotalWords(rs.items) > WordLimit then [TooManyWords(TotalWords(rs.items))] else []);
    }
  }

  /** No response problem exactly when no response has one. */
  lemma {:induction false} ResponsesNothing(rs: seq<Json>)
    ensures ResponsesProblems(rs) == [] <==> forall i | 0 <= i < |rs| :: ResponseProblems(i, rs[i]) == []
    decreases |rs|
  {
    if |rs| > 0 {
      var n := |rs| - 1;
      var init := rs[..n];
      ResponsesNothing(init);
      var last := ResponseProblems(n, rs[n]);
      assert ResponsesProblems(rs) == ResponsesProblems(init) + last;
      NothingJoined(ResponsesProblems(init), last);
      if ResponsesProblems(rs) == [] {
        forall i | 0 <= i < |rs|
          ensures ResponseProblems(i, rs[i]) == []
        {
          if i < n {
            assert init[i] == rs[i];
            assert ResponseProblems(i, init[i]) == [];
          } else {
            assert i == n && last == [];
          }
        }
      } else if ResponsesProblems(init) != [] {
        var i :| 0 <= i < n && ResponseProblems(i, init[i]) != [];
        assert init[i] == rs[i];
      } else {
        assert ResponseProblems(n, rs[n]) != [];
      }
    }
  }

  /** Two lists joined are empty exactly when both are. */
  lemma NothingJoined<T>(a: seq<T>, b: seq<T>)
    ensures a + b == [] <==> a == [] && b == []
  {
    assert |a + b| == |a| + |b|;
  }

  /**
   * A run dict without `metadata` gets exactly that one error, and one
   * with `metadata` but without `responses` exactly the other.
   */
  lemma TopLevelMissing(run: Json)
    requires run.JObject?
    ensures Get(run, "metadata").None? ==> RunProblems(run) == Ok([MissingMetadata])
    ensures Get(run, "metadata").Some? && Get(run, "responses").None? ==> RunProblems(run) == Ok([MissingResponses])
  {
  }

  /** A dict run with both fields and dict metadata: what the metadata and the responses are reported for. */
  predicate Checked(run: Json)
  {
    run.JObject? && Get(run, "metadata").Some? && Get(run, "responses").Some? && Get(run, "metadata").value.JObject?
  }

  /** Such a run raises nothing, and its problems are the metadata's followed by the responses'. */
  lemma CheckedProblems(run: Json)
    requires Checked(run)
    ensures MetadataProblems(Get(run, "metadata").value).Ok?
    ensures RunProblems(run) == Ok(MetadataProblems(Get(run, "metadata").value).value + ResponseListProblems(Get(run, "responses").value))
  {
    var m := Get(run, "metadata").value;
    MissingOfDict(m, RequiredFields, "");
    FieldCheckOfDict(m, "team_id");
    FieldCheckOfDict(m, "run_id");
    FieldCheckOfDict(m, "topic_id");
    FieldCheckOfDict(m, "type");
    FieldCheckOfDict(m, "use_starter_kit");
  }

  /** What two checks report together is what either reports. */
  lemma ThenIn(a: Result<seq<Problem>, PyError>, b: Result<seq<Problem>, PyError>, p: Problem)
    requires a.Ok? && b.Ok?
    ensures Then(a, b).Ok? && (p in Then(a, b).value <==> p in a.value || p in b.value)
  {
  }

  /** A dict's type tests raise nothing and report only bad values. */
  lemma TypeProblemsOfDict(m: Json, p: Problem)
    requires m.JObject?
    ensures TypeProblems(m).Ok?
    ensures p in TypeProblems(m).value ==> p.NotAString? || p.BadType? || p.BadStarterKit?
  {
    var c0, c1, c2, c3, c4 := FieldCheck(m, "team_id"), FieldCheck(m, "run_id"), FieldCheck(m, "topic_id"),
                              FieldCheck(m, "type"), FieldCheck(m, "use_starter_kit");
    FieldCheckOfDict(m, "team_id");
    FieldCheckOfDict(m, "run_id");
    FieldCheckOfDict(m, "topic_id");
    FieldCheckOfDict(m, "type");
    FieldCheckOfDict(m, "use_starter_kit");
    ThenKind(c3, c4);
    ThenKind(c2, Then(c3, c4));
    ThenKind(c1, Then(c2, Then(c3, c4)));
    ThenKind(c0, Then(c1, Then(c2, Then(c3, c4))));
  }

  /** A dict's metadata raises nothing and is never reported for a problem about responses. */
  lemma MetadataProblemsOfDict(m: Json, p: Problem)
    requires m.JObject?
    ensures MetadataProblems(m).Ok?
    ensures p in MetadataProblems(m).value ==> ResponseOf(p).None? && !p.TooManyWords?
  {
    var missing, types := MissingIn(m, RequiredFields), TypeProblems(m);
    MissingOfDict(m, RequiredFields, "");
    TypeProblemsOfDict(m, p);
    ThenIn(missing, types, p);
    if p in MetadataProblems(m).value {
      MetadataKind(p);
    }
  }

  /** A problem about the metadata is about no response and is not the word count. */
  lemma MetadataKind(p: Problem)
    requires p.MissingMetadataField? || p.NotAString? || p.BadType? || p.BadStarterKit?
    ensures ResponseOf(p).None? && !p.TooManyWords?
  {
  }

  /** A dict's metadata is reported missing a field exactly when the field is required and absent. */
  lemma MissingFieldOfDict(m: Json, f: string)
    requires m.JObject?
    ensures MetadataProblems(m).Ok?
    ensures MissingMetadataField(f) in MetadataProblems(m).value <==> f in RequiredFields && Get(m, f).None?
  {
    MissingOfDict(m, RequiredFields, f);
    TypeProblemsOfDict(m, MissingMetadataField(f));
    ThenIn(MissingIn(m, RequiredFields), TypeProblems(m), MissingMetadataField(f));
  }

  /** The problems of a `responses` value are about the list, one response or the words. */
  lemma ResponseListProblemsOf(responses: Json, p: Problem)
    requires p in ResponseListProblems(responses)
    ensures !p.MissingMetadataField?
    ensures p.TooManyWords? ==> responses.JArray? && responses.items != [] && TotalWords(responses.items) > WordLimit &&
                                p.total == TotalWords(responses.items)
  {
    if responses.JArray? && responses.items != [] && p in ResponsesProblems(responses.items) {
      ProblemsAboutResponse(responses.items, p);
    }
  }

  /** Each absent metadata field adds one error, and only an absent one does. */
  lemma MissingFieldReported(run: Json, f: string)
    requires Checked(run)
    ensures RunProblems(run).Ok?
    ensures MissingMetadataField(f) in RunProblems(run).value <==> f in RequiredFields && Get(Get(run, "metadata").value, f).None?
  {
    CheckedProblems(run);
    MissingFieldOfDict(Get(run, "metadata").value, f);
    if MissingMetadataField(f) in ResponseListProblems(Get(run, "responses").value) {
      ResponseListProblemsOf(Get(run, "responses").value, MissingMetadataField(f));
    }
  }

  /**
   * With a non-empty list of responses, the word-limit error is reported
   * exactly when the words of the string texts exceed 250, and carries
   * their count.
   */
  lemma WordLimitReported(run: Json, t: nat)
    requires Checked(run) && Get(run, "responses").value.JArray? && Get(run, "responses").value.items != []
    ensures RunProblems(run).Ok?
    ensures TooManyWords(t) in RunProblems(run).value <==> t == TotalWords(Get(run, "responses").value.items) && t > WordLimit
  {
    CheckedProblems(run);
    MetadataProblemsOfDict(Get(run, "metadata").value, TooManyWords(t));
    if TooManyWords(t) in ResponseListProblems(Get(run, "responses").value) {
      ResponseListProblemsOf(Get(run, "responses").value, TooManyWords(t));
    }
  }

  /**
   * `responses` that is not a list, or an empty list, adds exactly one
   * error after the metadata's and nothing about responses or words.
   */
  lemma ResponsesNotChecked(run: Json)
    requires Checked(run)
    requires !Get(run, "responses").value.JArray? || Get(run, "responses").value.items == []
    ensures MetadataProblems(Get(run, "metadata").value).Ok?
    ensures RunProblems(run) == Ok(MetadataProblems(Get(run, "metadata").value).value +
                                  [if Get(run, "responses").value.JArray? then ResponsesEmpty else ResponsesNotList])
  {
    CheckedProblems(run);
  }

  /**
   * Among a list of responses, the problems about response `i` are its
   * own: none is reported about an index past the list.
   */
  lemma ProblemsAboutResponse(rs: seq<Json>, p: Problem)
    requires p in ResponsesProblems(rs)
    ensures ResponseOf(p).Some? && ResponseOf(p).value < |rs|
  {
    ResponsesProblemsAt(rs, p);
    var i :| 0 <= i < |rs| && p in ResponseProblems(i, rs[i]);
    ResponseProblemsAbout(i, rs[i]);
  }
}
