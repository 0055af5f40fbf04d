// The corpus helpers of the question-template generator
// (src/DebateAndReport/template_generator/template_generator.py): merging the
// `groups` lists of several JSON texts, picking a record's text field, and
// assembling a document from the corpus records whose segment id has the same
// base id, ordered by the segment number in the id. Decoding is an input: a
// text or a corpus line is None when `json.loads` rejects it. The corpus file
// is None when it is not a file.
module TemplateGenerator {
  import opened Wrappers
  import opened Strings
  import opened Json
  import opened PyJson
  import opened Decimal
  import opened LexOrder
  import opened Sorting
  import InfoUtils

  // ---------------------------------------------------------------------
  // combine_group_json_texts

  /** The groups one text adds: `data.get("groups", [])`, which `extend` iterates. */
  function GroupsOf(text: Option<Json>): Result<seq<Json>, PyError>
  {
    match text
    case None => Err(JsonDecodeError)
    case Some(data) =>
      match GetOr(data, "groups", JArray([]))
      case Err(e) => Err(e)
      case Ok(g) => Iterate(g)
  }

  /** The merged groups of all texts in order; the exception of the first text that fails. */
  function Combined(texts: seq<Option<Json>>): Result<seq<Json>, PyError>
  {
    match Collect(texts, GroupsOf)
    case Err(e) => Err(e)
    case Ok(parts) => Ok(Concat(parts))
  }

  /** `{"groups": groups}`, the value `json.dumps` renders. */
  function Merged(groups: seq<Json>): Json
  {
    JObject([("groups", JArray(groups))])
  }

  method CombineGroupJsonTexts(texts: seq<Option<Json>>) returns (r: Result<Json, PyError>)
    ensures r == match Combined(texts) case Err(e) => Err(e) case Ok(gs) => Ok(Merged(gs))
  {
    var groups: seq<Json> := [];
    ghost var parts: seq<seq<Json>> := [];
    var i := 0;
    while i < |texts|
      invariant i <= |texts|
      invariant Collect(texts[..i], GroupsOf) == Ok(parts)
      invariant groups == Concat(parts)
    {
      var step := GroupsOf(texts[i]);
      if texts[i].None? {
        CollectStepFailure(texts, GroupsOf, i);
        CollectPrefixFailure(texts, GroupsOf, i + 1);
        return Err(JsonDecodeError);
      }
      var g := GetOr(texts[i].value, "groups", JArray([]));
      if g.Err? {
        CollectStepFailure(texts, GroupsOf, i);
        CollectPrefixFailure(texts, GroupsOf, i + 1);
        return Err(g.error);
      }
      var items := Iterate(g.value);
      if items.Err? {
        CollectStepFailure(texts, GroupsOf, i);
        CollectPrefixFailure(texts, GroupsOf, i + 1);
        return Err(items.error);
      }
      CollectStep(texts, GroupsOf, i);
      assert (parts + [items.value])[..|parts|] == parts;
      groups := groups + items.value;
      parts := parts + [items.value];
      i := i + 1;
    }
    assert texts[..i] == texts;
    return Ok(Merged(groups));
  }

  /**
   * A text that is a dict contributes its `groups` list, nothing when it has
   * none, and fails when `groups` is not iterable; any other text fails.
   */
  lemma GroupsOfText(text: Option<Json>)
    ensures text.None? ==> GroupsOf(text) == Err(JsonDecodeError)
    ensures text.Some? && !text.value.JObject? ==> GroupsOf(text) == Err(AttributeError)
    ensures text.Some? && text.value.JObject? ==>
              match Lookup(text.value.members, "groups")
              case None => GroupsOf(text) == Ok([])
              case Some(g) => GroupsOf(text) == Iterate(g) &&
                              (g.JArray? ==> GroupsOf(text) == Ok(g.items)) &&
                              (GroupsOf(text).Err? <==> !(g.JArray? || g.JObject? || g.JString?))
  {
  }

  /**
   * Merging distributes over the texts: the groups of two runs of texts are
   * the first run's groups followed by the second's, and the first failure
   * in text order is the failure of the whole.
   */
  lemma CombinedAppend(a: seq<Option<Json>>, b: seq<Option<Json>>)
    ensures Combined(a + b) ==
              match Combined(a)
              case Err(e) => Err(e)
              case Ok(x) =>
                match Combined(b)
                case Err(e) => Err(e)
                case Ok(y) => Ok(x + y)
  {
    CollectAppend(a, b, GroupsOf);
    if Collect(a, GroupsOf).Ok? && Collect(b, GroupsOf).Ok? {
      ConcatAppend(Collect(a, GroupsOf).value, Collect(b, GroupsOf).value);
    }
  }

  /** One text merges to exactly its own groups. */
  lemma CombinedOne(text: Option<Json>)
    ensures Combined([text]) == GroupsOf(text)
  {
    var c := Collect([text], GroupsOf);
    if c.Ok? {
      assert c.value == [GroupsOf(text).value];
      assert c.value[..0] == [];
      assert Concat(c.value) == Concat<Json>([]) + c.value[0];
      assert Concat<Json>([]) + c.value[0] == c.value[0];
    } else {
      assert FirstErr([text], GroupsOf) == Some(0);
    }
  }

  // ---------------------------------------------------------------------
  // _extract_text_field

  /** The keys this `_extract_text_field` tries, in order: `segment` first. */
  const TemplateTextKeys: seq<string> := ["segment"] + InfoUtils.TextKeys

  function ExtractTextField(obj: seq<(string, Json)>): Json
  {
    InfoUtils.FirstTruthy(obj, TemplateTextKeys)
  }

  /**
   * A truthy `segment` wins; otherwise the choice is the retrieval
   * utilities' own `_extract_text_field`.
   */
  lemma ExtractTextFieldSegmentFirst(obj: seq<(string, Json)>)
    ensures InfoUtils.Holds(obj, "segment") ==> ExtractTextField(obj) == Lookup(obj, "segment").value
    ensures !InfoUtils.Holds(obj, "segment") ==> ExtractTextField(obj) == InfoUtils.ExtractTextField(obj)
  {
    assert TemplateTextKeys[0] == "segment";
    assert TemplateTextKeys[1..] == InfoUtils.TextKeys;
  }

  // ---------------------------------------------------------------------
  // The segment number: re.match(r".*#(\d+)", seg_id)

  /**
   * `#` at `p` followed by a digit, with no newline before it: a place where
   * `.*#\d` can match, since `.` does not match a newline.
   */
  predicate NumberMark(s: string, p: nat)
  {
    p + 1 < |s| && s[p] == '#' && IsDigit(s[p + 1]) && '\n' !in s[..p]
  }

  /** The last mark before `end`, where the greedy `.*` stops. */
  function LastMark(s: string, end: nat): (r: Option<nat>)
    requires end <= |s|
    ensures r.Some? ==> r.value < end && NumberMark(s, r.value)
    ensures r.Some? ==> forall q | r.value < q < end :: !NumberMark(s, q)
    ensures r.None? ==> forall q | 0 <= q < end :: !NumberMark(s, q)
    decreases end
  {
    if end == 0 then None
    else if NumberMark(s, end - 1) then Some(end - 1)
    else LastMark(s, end - 1)
  }

  /** The end of the run of digits starting at `i`, where the greedy `\d+` stops. */
  function DigitsEnd(s: string, i: nat): (j: nat)
    requires i <= |s|
    ensures i <= j <= |s| && AllDigits(s[i..j]) && (j < |s| ==> !IsDigit(s[j]))
    decreases |s| - i
  {
    if i < |s| && IsDigit(s[i]) then
      var j := DigitsEnd(s, i + 1);
      assert s[i..j] == [s[i]] + s[i + 1..j];
      j
    else i
  }

  /** `int(m.group(1)) if m else 0`. */
  function SegmentNumber(sid: string): nat
  {
    match LastMark(sid, |sid|)
    case None => 0
    case Some(p) => Value(sid[p + 1..DigitsEnd(sid, p + 1)])
  }

  /** An id `base#n` with no newline in the base carries the number `n`. */
  lemma SegmentNumberOf(base: string, n: nat)
    requires '\n' !in base
    ensures SegmentNumber(base + "#" + ToDecimal(n)) == n
  {
    var d := ToDecimal(n);
    var s := base + "#" + d;
    var p := |base|;
    assert s[..p] == base;
    assert s[p] == '#' && s[p + 1] == d[0];
    assert NumberMark(s, p);
    forall q | p < q < |s| ensures !NumberMark(s, q) {
      assert s[q] == d[q - p - 1];
    }
    assert LastMark(s, |s|) == Some(p);
    assert forall k | p + 1 <= k < |s| :: s[k] == d[k - p - 1];
    assert DigitsEnd(s, p + 1) == |s|;
    assert s[p + 1..|s|] == d;
    ValueOfToDecimal(n);
  }

  /** An id without `#` has segment number 0. */
  lemma SegmentNumberUnmarked(sid: string)
    requires '#' !in sid
    ensures SegmentNumber(sid) == 0
  {
  }

  /**
   * The match cannot cross a newline: when no `#` comes before the first
   * newline, the number after it is not seen.
   */
  lemma SegmentNumberAfterNewline(a: string, b: string)
    requires '#' !in a
    ensures SegmentNumber(a + "\n" + b) == 0
  {
    var s := a + "\n" + b;
    forall q | 0 <= q < |s| ensures !NumberMark(s, q) {
      if q < |a| {
        assert s[q] == a[q];
      } else if q > |a| {
        assert s[..q][|a|] == '\n';
      }
    }
  }

  // ---------------------------------------------------------------------
  // get_document_text

  /** A collected segment: its number and its text field. */
  type Segment = (nat, Json)

  /**
   * What one corpus line adds: nothing for an undecodable line, a record
   * without a truthy id, or one of another document; else its segment. A
   * line that is not a dict has no `get`, and an id that is not a string no
   * `split`: both raise AttributeError.
   */
  function LineSegment(line: Option<Json>, baseId: string): Result<Option<Segment>, PyError>
  {
    match line
    case None => Ok(None)
    case Some(obj) =>
      if !obj.JObject? then Err(AttributeError)
      else
        var sid := Or(Or(GetOrNull(obj, "segment_id"), GetOrNull(obj, "docid")), GetOrNull(obj, "id"));
        if !Truthy(sid) then Ok(None)
        else if !sid.JString? then Err(AttributeError)
        else if Before(sid.s, '#') != baseId then Ok(None)
        else Ok(Some((SegmentNumber(sid.s), ExtractTextField(obj.members))))
  }

  function LineReader(baseId: string): Option<Json> -> Result<Option<Segment>, PyError>
  {
    line => LineSegment(line, baseId)
  }

  /** The present values, in order. */
  function Somes<T>(xs: seq<Option<T>>): seq<T>
    decreases |xs|
  {
    if |xs| == 0 then []
    else
      var init := Somes(xs[..|xs| - 1]);
      match xs[|xs| - 1]
      case None => init
      case Some(x) => init + [x]
  }

  lemma {:induction false} SomesAppend<T>(a: seq<Option<T>>, b: seq<Option<T>>)
    ensures Somes(a + b) == Somes(a) + Somes(b)
    decreases |b|
  {
    if |b| == 0 {
      assert a + b == a;
    } else {
      var init := b[..|b| - 1];
      SomesAppend(a, init);
      assert (a + b)[..|a + b| - 1] == a + init;
      if b[|b| - 1].Some? {
        assert (Somes(a) + Somes(init)) + [b[|b| - 1].value] == Somes(a) + (Somes(init) + [b[|b| - 1].value]);
      }
    }
  }

  /** `(idx, text) <= (idx', text')` on tuples whose texts are strings. */
  predicate SegmentLe(a: Segment, b: Segment)
  {
    a.0 < b.0 || (a.0 == b.0 && LexLe(TextOf(a.1), TextOf(b.1)))
  }

  function TextOf(j: Json): string
  {
    if j.JString? then j.s else ""
  }

  lemma SegmentLePreorder()
    ensures TotalPreorder(SegmentLe)
  {
    forall a: Segment, b: Segment ensures SegmentLe(a, b) || SegmentLe(b, a) {
      LexTotal(TextOf(a.1), TextOf(b.1));
    }
    forall a: Segment, b: Segment, c: Segment | SegmentLe(a, b) && SegmentLe(b, c) ensures SegmentLe(a, c) {
      if a.0 == b.0 == c.0 {
        LexTransitive(TextOf(a.1), TextOf(b.1), TextOf(c.1));
      }
    }
  }

  /** Every text field is a string, so sorting and joining cannot raise. */
  predicate AllText(segs: seq<Segment>)
  {
    forall i | 0 <= i < |segs| :: segs[i].1.JString?
  }

  /** The non-empty texts, in order (`text for _, text in segments if text`). */
  function NonEmptyTexts(segs: seq<Segment>): (r: seq<string>)
    ensures forall t | t in r :: t != []
    decreases |segs|
  {
    if |segs| == 0 then []
    else
      var init := NonEmptyTexts(segs[..|segs| - 1]);
      var t := TextOf(segs[|segs| - 1].1);
      if t == [] then init else init + [t]
  }

  /**
   * `segments.sort()` and the newline join: a truthy text that is not a
   * string makes one of them raise TypeError.
   */
  function Assembled(segs: seq<Segment>): Result<string, PyError>
  {
    if !AllText(segs) then Err(TypeError)
    else Ok(Join("\n", NonEmptyTexts(SortBy(segs, SegmentLe))))
  }

  /** `get_document_text(doc_or_segment_id, path)` over the corpus. */
  function DocumentText(corpus: Option<seq<Option<Json>>>, id: string): Result<string, PyError>
  {
    match corpus
    case None => Err(FileNotFound)
    case Some(lines) =>
      match Collect(lines, LineReader(Before(id, '#')))
      case Err(e) => Err(e)
      case Ok(found) => Assembled(Somes(found))
  }

  /** The loop body of `get_document_text` for one corpus line. */
  method ReadSegment(line: Option<Json>, baseId: string) returns (r: Result<Option<Segment>, PyError>)
    ensures r == LineSegment(line, baseId)
  {
    if line.None? {
      return Ok(None);
    }
    var obj := line.value;
    if !obj.JObject? {
      return Err(AttributeError);
    }
    var segId := Or(Or(GetOrNull(obj, "segment_id"), GetOrNull(obj, "docid")), GetOrNull(obj, "id"));
    if !Truthy(segId) {
      return Ok(None);
    }
    if !segId.JString? {
      return Err(AttributeError);
    }
    if Before(segId.s, '#') != baseId {
      return Ok(None);
    }
    return Ok(Some((SegmentNumber(segId.s), ExtractTextField(obj.members))));
  }

  method GetDocumentText(docOrSegmentId: string, corpus: Option<seq<Option<Json>>>) returns (r: Result<string, PyError>)
    ensures r == DocumentText(corpus, docOrSegmentId)
  {
    if corpus.None? {
      return Err(FileNotFound);
    }
    var lines := corpus.value;
    var baseId := Before(docOrSegmentId, '#');
    ghost var read := LineReader(baseId);
    ghost var found: seq<Option<Segment>> := [];
    var segments: seq<Segment> := [];
    var i := 0;
    while i < |lines|
      invariant i <= |lines|
      invariant Collect(lines[..i], read) == Ok(found)
      invariant segments == Somes(found)
    {
      var step := ReadSegment(lines[i], baseId);
      if step.Err? {
        CollectStepFailure(lines, read, i);
        CollectPrefixFailure(lines, read, i + 1);
        return Err(step.error);
      }
      var seg := step.value;
      CollectStep(lines, read, i);
      SomesAppend(found, [seg]);
      found := found + [seg];
      if seg.Some? {
        segments := segments + [seg.value];
      }
      i := i + 1;
    }
    assert lines[..i] == lines;
    return Assembled(segments);
  }

  /**
   * The sorted segments are a permutation of the collected ones, ordered by
   * number and then by text.
   */
  lemma SortedSegments(segs: seq<Segment>)
    ensures multiset(SortBy(segs, SegmentLe)) == multiset(segs)
    ensures forall i, j | 0 <= i < j < |segs| :: SortBy(segs, SegmentLe)[i].0 <= SortBy(segs, SegmentLe)[j].0
  {
    SegmentLePreorder();
    SortByPermutes(segs, SegmentLe);
    SortBySorted(segs, SegmentLe);
  }

  /**
   * The document does not depend on the order of the corpus lines that hold
   * its segments: any arrangement of the same segments assembles alike.
   */
  lemma AssembledOrderFree(s1: seq<Segment>, s2: seq<Segment>)
    requires multiset(s1) == multiset(s2)
    ensures Assembled(s1) == Assembled(s2)
  {
    assert forall x :: x in s1 <==> x in s2 by {
      forall x ensures x in s1 <==> x in s2 {
        assert x in s1 <==> x in multiset(s1);
        assert x in s2 <==> x in multiset(s2);
      }
    }
    if AllText(s1) {
      assert AllText(s2) by {
        forall i | 0 <= i < |s2| ensures s2[i].1.JString? {
          assert s2[i] in s1;
        }
      }
      SegmentLePreorder();
      var r1, r2 := SortBy(s1, SegmentLe), SortBy(s2, SegmentLe);
      SortByPermutes(s1, SegmentLe);
      SortByPermutes(s2, SegmentLe);
      SortBySorted(s1, SegmentLe);
      SortBySorted(s2, SegmentLe);
      forall x, y | x in r1 && y in r1 && SegmentLe(x, y) && SegmentLe(y, x) ensures x == y {
        assert x in multiset(s1) && y in multiset(s1);
        assert x.1.JString? && y.1.JString? by {
          var i :| 0 <= i < |s1| && s1[i] == x;
          var j :| 0 <= j < |s1| && s1[j] == y;
        }
        LexAntisymmetric(TextOf(x.1), TextOf(y.1));
      }
      SortedUnique(r1, r2, SegmentLe);
    } else {
      assert !AllText(s2) by {
        var i :| 0 <= i < |s1| && !s1[i].1.JString?;
        assert s1[i] in s2;
      }
    }
  }

  /** Two segments come out in number order, whichever line came first. */
  lemma TwoSegments(m: nat, a: string, n: nat, b: string)
    requires m < n && a != [] && b != []
    ensures Assembled([(n, JString(b)), (m, JString(a))]) == Ok(a + "\n" + b)
    ensures Assembled([(m, JString(a)), (n, JString(b))]) == Ok(a + "\n" + b)
  {
    var x, y := (m, JString(a)), (n, JString(b));
    assert SortBy([x], SegmentLe) == [x];
    assert [y, x][..1] == [y];
    assert SortBy([y, x], SegmentLe) == Insert([y], x, SegmentLe);
    assert Insert([y], x, SegmentLe) == [x, y];
    assert [x, y][..1] == [x];
    assert SortBy([x, y], SegmentLe) == [x, y];
    assert [x, y][..1] == [x];
    assert NonEmptyTexts([x]) == [a];
    assert NonEmptyTexts([x, y]) == [a, b];
    JoinCons("\n", a, [b]);
  }

  /**
   * A line that is undecodable, has no truthy id, or belongs to another
   * document changes nothing, wherever it stands in the corpus.
   */
  lemma SkippedLine(a: seq<Option<Json>>, line: Option<Json>, b: seq<Option<Json>>, id: string)
    requires LineSegment(line, Before(id, '#')) == Ok(None)
    ensures DocumentText(Some(a + [line] + b), id) == DocumentText(Some(a + b), id)
  {
    var read := LineReader(Before(id, '#'));
    assert read(line) == Ok(None);
    CollectStep([line], read, 0);
    assert [line][..1] == [line];
    CollectAppend(a, [line], read);
    CollectAppend(a + [line], b, read);
    CollectAppend(a, b, read);
    if Collect(a, read).Ok? && Collect(b, read).Ok? {
      var u, v := Collect(a, read).value, Collect(b, read).value;
      SomesAppend(u + [None], v);
      SomesAppend(u, [None]);
      SomesAppend(u, v);
      var none: seq<Option<Segment>> := [None];
      assert Somes(none) == [];
      assert Somes(u) + [] == Somes(u);
    }
  }

  /** The base of `b#x`, for a base without `#`. */
  lemma BeforeMark(b: string, x: string)
    requires '#' !in b
    ensures Before(b + "#" + x, '#') == b
  {
    var s := b + "#" + x;
    var r := Before(s, '#');
    assert s[|b|] == '#';
    assert r == s[..|r|] && s[..|b|] == b;
  }

  /** A record `{"segment_id": "base#n", "segment": text}` is segment `n` of `base`. */
  lemma SameDocumentSegment(base: string, n: nat, text: string)
    requires '#' !in base && '\n' !in base && text != []
    ensures LineSegment(Some(JObject([("segment_id", JString(base + "#" + ToDecimal(n))), ("segment", JString(text))])), base) ==
            Ok(Some((n, JString(text))))
  {
    BeforeMark(base, ToDecimal(n));
    SegmentNumberOf(base, n);
    var sid := base + "#" + ToDecimal(n);
    var obj := [("segment_id", JString(sid)), ("segment", JString(text))];
    assert Lookup(obj, "segment") == Some(JString(text));
    assert Lookup(obj, "segment_id") == Some(JString(sid));
    assert GetOrNull(JObject(obj), "segment_id") == JString(sid);
    assert InfoUtils.Holds(obj, "segment");
    ExtractTextFieldSegmentFirst(obj);
    assert ExtractTextField(obj) == JString(text);
    assert Truthy(JString(sid));
  }

  /**
   * The base id is compared whole: a record of another base is skipped even
   * when one base starts with the other (`doc_1` and `doc_10`), unlike the
   * prefix test of the retrieval utilities.
   */
  lemma OtherDocumentSkipped(base: string, other: string, x: string, text: string)
    requires '#' !in other && other != base
    ensures LineSegment(Some(JObject([("segment_id", JString(other + "#" + x)), ("segment", JString(text))])), base) == Ok(None)
  {
    BeforeMark(other, x);
  }
}
