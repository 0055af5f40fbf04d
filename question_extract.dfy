// How the question-set generator reads a model reply: `_extract_json` (a
// direct parse, else the first balanced `{...}` span found by counting
// braces, else a retry with trailing commas removed) and the checks
// `_call_openai` applies to what it gets back. `json.loads` is the parameter
// `loads` (None where it raises `JSONDecodeError`) and `why` is the text of
// that exception.
module QuestionExtract {
  import opened Wrappers
  import opened Strings
  import opened Json
  import opened PyText

  // ---------------------------------------------------------------------
  // The brace count

  /** What a character does to the brace count: `{` adds one, `}` takes one away. */
  function Delta(c: char): int
  {
    if c == '{' then 1 else if c == '}' then -1 else 0
  }

  /** The brace count after scanning `s`; braces inside string literals count too. */
  function Depth(s: string): int
    decreases |s|
  {
    if |s| == 0 then 0 else Depth(s[..|s| - 1]) + Delta(s[|s| - 1])
  }

  lemma DepthNext(text: string, start: nat, i: nat)
    requires start <= i < |text|
    ensures Depth(text[start..i + 1]) == Depth(text[start..i]) + Delta(text[i])
  {
    assert text[start..i + 1][..i - start] == text[start..i];
  }

  /**
   * `text[start..end]` is the first balanced span from `start`: the count is
   * back at 0 after it, and above 0 after every shorter non-empty prefix.
   */
  predicate ClosesAt(text: string, start: nat, end: nat)
  {
    start < end <= |text| && Depth(text[start..end]) == 0 &&
    forall k | start < k < end :: Depth(text[start..k]) > 0
  }

  /** The count never comes back to 0 after `start`. */
  predicate NeverCloses(text: string, start: nat)
  {
    start <= |text| && forall k | start < k <= |text| :: Depth(text[start..k]) > 0
  }

  /** There is only one first balanced span. */
  lemma ClosesOnce(text: string, start: nat, e1: nat, e2: nat)
    requires ClosesAt(text, start, e1) && ClosesAt(text, start, e2)
    ensures e1 == e2
  {
  }

  /** The scan from `i` on, with `depth` the count so far. */
  function CloseFrom(text: string, start: nat, i: nat, depth: int): (r: Option<nat>)
    requires start < |text| && text[start] == '{' && start <= i <= |text|
    requires depth == Depth(text[start..i])
    requires forall k | start < k <= i :: Depth(text[start..k]) > 0
    ensures r.Some? ==> ClosesAt(text, start, r.value)
    ensures r.None? ==> NeverCloses(text, start)
    decreases |text| - i
  {
    if i == |text| then None
    else
      DepthNext(text, start, i);
      var d := depth + Delta(text[i]);
      if text[i] == '}' && d == 0 then Some(i + 1)
      else CloseFrom(text, start, i + 1, d)
  }

  /** Where the first balanced span from the `{` at `start` ends, if it does. */
  function FirstClose(text: string, start: nat): (r: Option<nat>)
    requires start < |text| && text[start] == '{'
    ensures r.Some? ==> ClosesAt(text, start, r.value)
    ensures r.None? ==> NeverCloses(text, start)
  {
    CloseFrom(text, start, start, 0)
  }

  /** The first balanced span, when there is one, is what `FirstClose` finds. */
  lemma FirstCloseAt(text: string, start: nat, end: nat)
    requires start < |text| && text[start] == '{' && ClosesAt(text, start, end)
    ensures FirstClose(text, start) == Some(end)
  {
    if FirstClose(text, start).None? {
      assert false;
    }
    ClosesOnce(text, start, end, FirstClose(text, start).value);
  }

  /** A count that never closes leaves `FirstClose` empty. */
  lemma FirstCloseNone(text: string, start: nat)
    requires start < |text| && text[start] == '{' && NeverCloses(text, start)
    ensures FirstClose(text, start).None?
  {
  }

  /**
   * The `for i, char in enumerate(text[start:], start)` loop: it stops at
   * the `}` that brings the count back to 0, with `end` just after it;
   * otherwise the count is left above 0 and `end` at `start`.
   */
  method ScanBraces(text: string, start: nat) returns (braceCount: int, end: nat)
    requires start < |text| && text[start] == '{'
    ensures braceCount == 0 ==> ClosesAt(text, start, end)
    ensures braceCount != 0 ==> end == start && NeverCloses(text, start) && braceCount == Depth(text[start..])
  {
    braceCount := 0;
    end := start;
    var i := start;
    while i < |text|
      invariant start <= i <= |text| && end == start
      invariant braceCount == Depth(text[start..i])
      invariant forall k | start < k <= i :: Depth(text[start..k]) > 0
    {
      DepthNext(text, start, i);
      if text[i] == '{' {
        braceCount := braceCount + 1;
      } else if text[i] == '}' {
        braceCount := braceCount - 1;
        if braceCount == 0 {
          end := i + 1;
          return;
        }
      }
      i := i + 1;
    }
    assert text[start..i] == text[start..];
  }

  // ---------------------------------------------------------------------
  // The comma fix

  /** How much whitespace `s` starts with: what a greedy `\s*` takes. */
  function SpaceRun(s: string): (n: nat)
    ensures n <= |s| && (forall k | 0 <= k < n :: IsSpace(s[k])) && (n < |s| ==> !IsSpace(s[n]))
    decreases |s|
  {
    if |s| > 0 && IsSpace(s[0]) then 1 + SpaceRun(s[1..]) else 0
  }

  predicate Closer(c: char)
  {
    c == '}' || c == ']'
  }

  /** Where the closer of a trailing comma at the start of `s` is, if `s` starts with one. */
  function TrailingComma(s: string): (j: Option<nat>)
    ensures j.Some? ==> 0 < j.value < |s| && s[0] == ',' && Closer(s[j.value]) &&
                        forall k | 0 < k < j.value :: IsSpace(s[k])
  {
    if |s| > 0 && s[0] == ',' && 1 + SpaceRun(s[1..]) < |s| && Closer(s[1 + SpaceRun(s[1..])]) then
      assert forall k | 0 < k < 1 + SpaceRun(s[1..]) :: s[k] == s[1..][k - 1];
      Some(1 + SpaceRun(s[1..]))
    else None
  }

  /**
   * `re.sub(r',\s*([}\]])', r'\1', s)`: scanning left to right, a comma
   * followed by whitespace and then `}` or `]` is replaced by that bracket.
   */
  function DropTrailingCommas(s: string): (r: string)
    decreases |s|
  {
    if |s| == 0 then []
    else match TrailingComma(s)
      case Some(j) => [s[j]] + DropTrailingCommas(s[j + 1..])
      case None => [s[0]] + DropTrailingCommas(s[1..])
  }

  /** What the fix may not touch: `s` without its commas and whitespace. */
  function Essential(s: string): string
    decreases |s|
  {
    if |s| == 0 then []
    else (if s[0] == ',' || IsSpace(s[0]) then [] else [s[0]]) + Essential(s[1..])
  }

  /** A leading comma and whitespace add nothing essential. */
  lemma {:induction false} EssentialSkip(s: string, j: nat)
    requires 0 < j <= |s| && s[0] == ',' && forall k | 0 < k < j :: IsSpace(s[k])
    ensures Essential(s) == Essential(s[j..])
    decreases j
  {
    if j > 1 {
      assert s[1..][0] == s[1];
      var t := [','] + s[2..];
      assert t[0] == ',' && t[1..] == s[2..];
      assert forall k | 0 < k < j - 1 :: t[k] == s[k + 1];
      EssentialSkip(t, j - 1);
      assert t[j - 1..] == s[j..];
    }
  }

  /** The fix only ever removes commas and whitespace, and keeps everything else in order. */
  lemma {:induction false} FixKeepsEssential(s: string)
    ensures Essential(DropTrailingCommas(s)) == Essential(s)
    decreases |s|
  {
    if |s| > 0 {
      match TrailingComma(s)
      case Some(j) =>
        FixKeepsEssential(s[j + 1..]);
        EssentialSkip(s, j);
        assert s[j..][1..] == s[j + 1..];
        assert ([s[j]] + DropTrailingCommas(s[j + 1..]))[1..] == DropTrailingCommas(s[j + 1..]);
      case None =>
        FixKeepsEssential(s[1..]);
        assert ([s[0]] + DropTrailingCommas(s[1..]))[1..] == DropTrailingCommas(s[1..]);
    }
  }

  /** Text without a comma is left as it is. */
  lemma {:induction false} FixWithoutCommas(s: string)
    requires ',' !in s
    ensures DropTrailingCommas(s) == s
    decreases |s|
  {
    if |s| > 0 {
      assert s[0] != ',';
      assert forall k | 0 <= k < |s[1..]| :: s[1..][k] == s[k + 1];
      FixWithoutCommas(s[1..]);
    }
  }

  /** A comma-free prefix is kept, and a trailing comma after it goes. */
  lemma FixDropsTrailingComma(a: string, ws: string, c: char, b: string)
    requires ',' !in a && (forall k | 0 <= k < |ws| :: IsSpace(ws[k])) && Closer(c)
    ensures DropTrailingCommas(a + [','] + ws + [c] + b) == a + [c] + DropTrailingCommas(b)
  {
    var rest := [','] + ws + [c] + b;
    assert a + [','] + ws + [c] + b == a + rest;
    FixKeepsPrefix(a, rest);
    FixAtComma(ws, c, b);
    assert a + ([c] + DropTrailingCommas(b)) == a + [c] + DropTrailingCommas(b);
  }

  /** Text before the first comma is left as it is. */
  lemma {:induction false} FixKeepsPrefix(a: string, rest: string)
    requires ',' !in a
    ensures DropTrailingCommas(a + rest) == a + DropTrailingCommas(rest)
    decreases |a|
  {
    if |a| > 0 {
      assert a[0] != ',';
      assert (a + rest)[1..] == a[1..] + rest;
      FixKeepsPrefix(a[1..], rest);
    } else {
      assert a + rest == rest;
    }
  }

  /** A trailing comma is replaced by its bracket. */
  lemma FixAtComma(ws: string, c: char, b: string)
    requires (forall k | 0 <= k < |ws| :: IsSpace(ws[k])) && Closer(c)
    ensures DropTrailingCommas([','] + ws + [c] + b) == [c] + DropTrailingCommas(b)
  {
    var s := [','] + ws + [c] + b;
    assert s[1..] == ws + ([c] + b);
    SpaceRunOf(ws, [c] + b);
    assert s[1 + |ws|] == c;
    assert TrailingComma(s) == Some(1 + |ws|);
    assert s[1 + |ws| + 1..] == b;
  }

  /** Whitespace followed by a character that is not whitespace is exactly the whitespace run. */
  lemma {:induction false} SpaceRunOf(ws: string, rest: string)
    requires (forall k | 0 <= k < |ws| :: IsSpace(ws[k])) && |rest| > 0 && !IsSpace(rest[0])
    ensures SpaceRun(ws + rest) == |ws|
    decreases |ws|
  {
    if |ws| > 0 {
      assert (ws + rest)[1..] == ws[1..] + rest;
      SpaceRunOf(ws[1..], rest);
    } else {
      assert ws + rest == rest;
    }
  }

  // ---------------------------------------------------------------------
  // _extract_json

  /** The error dict `_extract_json` returns: a message and the raw reply. */
  function ErrorDict(message: string, raw: string): Json
  {
    JObject([("error", JString(message)), ("raw_response", JString(raw))])
  }

  /**
   * `_extract_json(text)`: the direct parse; else, when there is a `{`,
   * the parse of the first balanced span from the first `{`, or, when the
   * count never closes, the parse of the whole text after the comma fix;
   * each failure gives an error dict holding the raw text.
   */
  function Extracted(text: string, loads: string -> Option<Json>, why: string -> string): Json
  {
    match loads(text)
    case Some(j) => j
    case None =>
      match IndexOf(text, '{')
      case None => ErrorDict("No JSON object found in response.", text)
      case Some(start) =>
        match FirstClose(text, start)
        case Some(end) =>
          (match loads(text[start..end])
           case Some(j) => j
           case None => ErrorDict("Failed to parse extracted JSON: " + why(text[start..end]), text))
        case None =>
          var fixed := DropTrailingCommas(text);
          match loads(fixed)
          case Some(j) => j
          case None => ErrorDict("Failed to parse JSON after fixes: " + why(fixed), text)
  }

  method ExtractJson(text: string, loads: string -> Option<Json>, why: string -> string) returns (r: Json)
    ensures r == Extracted(text, loads, why)
  {
    var direct := loads(text);
    if direct.Some? {
      return direct.value;
    }
    var first := IndexOf(text, '{');
    if first.None? {
      return ErrorDict("No JSON object found in response.", text);
    }
    var start := first.value;
    var braceCount, end := ScanBraces(text, start);
    if braceCount != 0 {
      FirstCloseNone(text, start);
      var fixed := DropTrailingCommas(text);
      var retried := loads(fixed);
      if retried.Some? {
        return retried.value;
      }
      return ErrorDict("Failed to parse JSON after fixes: " + why(fixed), text);
    }
    FirstCloseAt(text, start, end);
    var span := loads(text[start..end]);
    if span.Some? {
      return span.value;
    }
    return ErrorDict("Failed to parse extracted JSON: " + why(text[start..end]), text);
  }

  /** Without a `{` and without a direct parse there is nothing to extract. */
  lemma ExtractedNoObject(text: string, loads: string -> Option<Json>, why: string -> string)
    requires loads(text).None? && '{' !in text
    ensures Extracted(text, loads, why) == ErrorDict("No JSON object found in response.", text)
  {
  }

  /**
   * When the text does not parse as it is, the result is the parse of the
   * first balanced span from the first `{`, or an error naming that span's
   * parse failure.
   */
  lemma ExtractedSpan(text: string, loads: string -> Option<Json>, why: string -> string, start: nat, end: nat)
    requires loads(text).None? && start < |text| && text[start] == '{' && '{' !in text[..start]
    requires ClosesAt(text, start, end)
    ensures Extracted(text, loads, why) ==
              match loads(text[start..end])
              case Some(j) => j
              case None => ErrorDict("Failed to parse extracted JSON: " + why(text[start..end]), text)
  {
    FirstAtIndex(text, start);
    FirstCloseAt(text, start, end);
  }

  /**
   * When the braces from the first `{` never balance, the result is the
   * parse of the whole text after the comma fix, or an error naming that
   * parse's failure.
   */
  lemma ExtractedFixed(text: string, loads: string -> Option<Json>, why: string -> string, start: nat)
    requires loads(text).None? && start < |text| && text[start] == '{' && '{' !in text[..start]
    requires NeverCloses(text, start)
    ensures Extracted(text, loads, why) ==
              match loads(DropTrailingCommas(text))
              case Some(j) => j
              case None => ErrorDict("Failed to parse JSON after fixes: " + why(DropTrailingCommas(text)), text)
  {
    FirstAtIndex(text, start);
    FirstCloseNone(text, start);
  }

  /** The first `{` is where `text.find('{')` finds it. */
  lemma FirstAtIndex(text: string, start: nat)
    requires start < |text| && text[start] == '{' && '{' !in text[..start]
    ensures IndexOf(text, '{') == Some(start)
  {
    assert text[start] in text;
  }

  // ---------------------------------------------------------------------
  // _call_openai

  /**
   * How a chat-completion call ends: the message content (an absent content
   * is the empty string), a rate-limit error, or any other failure.
   */
  datatype Reply = Content(text: string) | RateLimited(message: string) | Failed(message: string)

  /** A dict with only an `error` message. */
  function Error(message: string): Json
  {
    JObject([("error", JString(message))])
  }

  /**
   * What `_call_openai` returns: an error dict for a failed call, an empty
   * reply, an extraction that is not a dict or a dict with neither
   * `answered` nor `unanswered`; otherwise the extracted dict.
   */
  function Answer(reply: Reply, loads: string -> Option<Json>, why: string -> string): (r: Json)
    ensures r.JObject?
  {
    match reply
    case RateLimited(m) => Error("Rate limit exceeded: " + m)
    case Failed(m) => Error("OpenAI API call failed: " + m)
    case Content(t) =>
      if t == [] then Error("Empty response from OpenAI.")
      else
        var result := Extracted(t, loads, why);
        if !result.JObject? then ErrorDict("Response is not a dictionary", t)
        else if Lookup(result.members, "answered").None? && Lookup(result.members, "unanswered").None? then
          ErrorDict("Missing both 'answered' and 'unanswered' keys", t)
        else result
  }

  method CallOpenAI(reply: Reply, loads: string -> Option<Json>, why: string -> string) returns (r: Json)
    ensures r == Answer(reply, loads, why)
  {
    if reply.RateLimited? {
      return Error("Rate limit exceeded: " + reply.message);
    }
    if reply.Failed? {
      return Error("OpenAI API call failed: " + reply.message);
    }
    var resultText := reply.text;
    if resultText == [] {
      return Error("Empty response from OpenAI.");
    }
    var result := ExtractJson(resultText, loads, why);
    if !result.JObject? {
      return ErrorDict("Response is not a dictionary", resultText);
    }
    if Lookup(result.members, "answered").None? && Lookup(result.members, "unanswered").None? {
      return ErrorDict("Missing both 'answered' and 'unanswered' keys", resultText);
    }
    return result;
  }

  /** What `get` finds in an extraction error dict: its message and raw text, and no answers. */
  lemma LookupErrorDict(message: string, raw: string)
    ensures var ms := ErrorDict(message, raw).members;
            Lookup(ms, "error") == Some(JString(message)) &&
            Lookup(ms, "answered").None? && Lookup(ms, "unanswered").None?
  {
    var ms := ErrorDict(message, raw).members;
    assert ms[..1] == [("error", JString(message))];
  }

  /**
   * A reply passes the checks exactly when it is non-empty content whose
   * extraction is a dict with `answered` or `unanswered`, and then it is
   * that dict; every other outcome carries an `error` key.
   */
  lemma AnswerCases(reply: Reply, loads: string -> Option<Json>, why: string -> string)
    ensures var r := Answer(reply, loads, why);
            var passes := reply.Content? && reply.text != [] && Extracted(reply.text, loads, why).JObject? &&
                          (Lookup(Extracted(reply.text, loads, why).members, "answered").Some? ||
                           Lookup(Extracted(reply.text, loads, why).members, "unanswered").Some?);
            (passes ==> r == Extracted(reply.text, loads, why)) &&
            (!passes ==> Lookup(r.members, "error").Some? && Lookup(r.members, "answered").None? &&
                         Lookup(r.members, "unanswered").None?)
  {
    match reply
    case Content(t) =>
      if t != [] {
        LookupErrorDict("Response is not a dictionary", t);
        LookupErrorDict("Missing both 'answered' and 'unanswered' keys", t);
      }
    case _ =>
  }

  /**
   * An extraction failure never reaches the caller as such: its error dict
   * has neither `answered` nor `unanswered`, so the reply is reported as
   * missing both keys, with the raw text, and the extraction's own message
   * is lost.
   */
  lemma ExtractionErrorMasked(t: string, loads: string -> Option<Json>, why: string -> string, message: string)
    requires t != [] && Extracted(t, loads, why) == ErrorDict(message, t)
    ensures Answer(Content(t), loads, why) == ErrorDict("Missing both 'answered' and 'unanswered' keys", t)
  {
    LookupErrorDict(message, t);
  }
}
