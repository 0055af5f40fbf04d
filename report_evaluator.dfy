// The report evaluator (src/ReportEvaluator/report_evaluator.py): it reads
// the evaluating model's reply, keeps the questions of its `<ir>` block,
// records its `<note>`, and scores its `<eval>` block on a weighted rubric
// whose total decides PASS or FAIL. The model call, the prompt's system text
// and `json.loads` are parameters; the log file is not modelled.
module ReportEvaluator {
  import opened Wrappers
  import opened Strings
  import opened Json
  import opened PyJson
  import opened PyText
  import opened ReportNotes

  datatype EvalStatus = Pass | Fail | Incomplete

  // ---------------------------------------------------------------------
  // _update_eval

  /** `MAX`: the comments' per-field maxima 15, 10, 10, 5, 5 and 10. */
  const MaxTotal: int := 15 + 10 + 10 + 5 + 5 + 10

  /**
   * The cases of the match: each rubric field with the factor its value is
   * multiplied by (the comments' maxima are 15, 10, 10, 5, 5 and 10).
   */
  const RubricFields: seq<(string, nat)> :=
    [("coverage", 3), ("accuracy", 2), ("citation_quality", 2), ("style", 1), ("prioritization", 1), ("completeness", 1)]

  /** The factor of the entries of `fields` that name `key`, 0 when none does. */
  function WeightIn(fields: seq<(string, nat)>, key: string): nat
    decreases |fields|
  {
    if |fields| == 0 then 0 else (if fields[0].0 == key then fields[0].1 else 0) + WeightIn(fields[1..], key)
  }

  /** The factor of the case matching `key`; the default case adds nothing. */
  function Weight(key: string): nat
  {
    WeightIn(RubricFields, key)
  }

  /**
   * What one item adds to `total`: `w * val` for a rubric field. Only an
   * int or a bool can be added to an int; any other value raises TypeError.
   */
  function Term(item: (string, Json)): Result<int, PyError>
  {
    if Weight(item.0) == 0 then Ok(0)
    else match AsInt(item.1)
      case None => Err(TypeError)
      case Some(n) => Ok(Weight(item.0) * n)
  }

  /** An item that can be added adds its factor times its value. */
  lemma TermValue(item: (string, Json))
    ensures Term(item).Ok? ==> Term(item).value == Weight(item.0) * IntOf(item.1)
  {
  }

  /** The sum of the added amounts, in order. */
  function Sum(xs: seq<int>): int
    decreases |xs|
  {
    if |xs| == 0 then 0 else Sum(xs[..|xs| - 1]) + xs[|xs| - 1]
  }

  /** The loop over `eval.items()`: the total, or the first item's exception. */
  function Total(items: seq<(string, Json)>): Result<int, PyError>
  {
    match Collect(items, Term)
    case Err(e) => Err(e)
    case Ok(ts) => Ok(Sum(ts))
  }

  /** `_update_eval(eval)`'s total; a value that is not a dict has no `items`. */
  function Score(ev: Json): Result<int, PyError>
  {
    if !ev.JObject? then Err(AttributeError) else Total(Items(ev.members))
  }

  /** `total / MAX > .9`, stated on integers. */
  function Verdict(total: int): EvalStatus
  {
    if 10 * total > 9 * MaxTotal then Pass else Fail
  }

  /** The loop of `_update_eval`, raising at the first item that cannot be added. */
  method Tally(items: seq<(string, Json)>) returns (r: Result<int, PyError>)
    ensures r == Total(items)
  {
    var total := 0;
    ghost var terms: seq<int> := [];
    var i := 0;
    while i < |items|
      invariant i <= |items|
      invariant Collect(items[..i], Term) == Ok(terms) && total == Sum(terms)
    {
      var t := Term(items[i]);
      if t.Err? {
        CollectStepFailure(items, Term, i);
        CollectPrefixFailure(items, Term, i + 1);
        return Err(t.error);
      }
      total := total + t.value;
      CollectStep(items, Term, i);
      assert (terms + [Term(items[i]).value])[..|terms|] == terms;
      terms := terms + [Term(items[i]).value];
      i := i + 1;
    }
    assert items[..i] == items;
    return Ok(total);
  }

  // ---------------------------------------------------------------------
  // The rubric as a formula

  /** Python's `int` view of a value, 0 for a value that is neither an int nor a bool. */
  function IntOf(v: Json): int
  {
    match AsInt(v) case None => 0 case Some(n) => n
  }

  /** The integer value of a rubric field, 0 when it is absent. */
  function Field(members: seq<(string, Json)>, key: string): int
  {
    match Lookup(members, key) case None => 0 case Some(v) => IntOf(v)
  }

  /** The weighted sum of the fields' values. */
  function RubricOver(members: seq<(string, Json)>, fields: seq<(string, nat)>): int
    decreases |fields|
  {
    if |fields| == 0 then 0 else fields[0].1 * Field(members, fields[0].0) + RubricOver(members, fields[1..])
  }

  /** 3·coverage + 2·accuracy + 2·citation_quality + style + prioritization + completeness. */
  function Rubric(members: seq<(string, Json)>): int
  {
    RubricOver(members, RubricFields)
  }

  /** The sum of the factors. */
  function TotalWeight(fields: seq<(string, nat)>): nat
    decreases |fields|
  {
    if |fields| == 0 then 0 else fields[0].1 + TotalWeight(fields[1..])
  }

  /** The field is absent or holds an int or a bool. */
  predicate FieldOk(members: seq<(string, Json)>, key: string)
  {
    Lookup(members, key).None? || AsInt(Lookup(members, key).value).Some?
  }

  /** Every rubric field that is present holds an int or a bool. */
  predicate Numeric(members: seq<(string, Json)>)
  {
    forall i | 0 <= i < |RubricFields| :: FieldOk(members, RubricFields[i].0)
  }

  /** Keys bound at most once. */
  predicate DistinctKeys(ps: seq<(string, Json)>)
  {
    forall i, j | 0 <= i < j < |ps| :: ps[i].0 != ps[j].0
  }

  /** Raising the value of field `k` by `x` raises the sum by `k`'s factor times `x`. */
  lemma {:induction false} RubricOverShift(a: seq<(string, Json)>, b: seq<(string, Json)>, k: string, x: int, fields: seq<(string, nat)>)
    requires forall i | 0 <= i < |fields| :: Field(a, fields[i].0) == Field(b, fields[i].0) + (if fields[i].0 == k then x else 0)
    ensures RubricOver(a, fields) == RubricOver(b, fields) + WeightIn(fields, k) * x
    decreases |fields|
  {
    if |fields| > 0 {
      var f, w := fields[0].0, fields[0].1;
      assert forall i | 0 <= i < |fields[1..]| :: fields[1..][i] == fields[i + 1];
      RubricOverShift(a, b, k, x, fields[1..]);
      ShiftStep(w, Field(a, f), Field(b, f), RubricOver(a, fields[1..]), RubricOver(b, fields[1..]), WeightIn(fields[1..], k), x, f == k);
    }
  }

  /** One field of `RubricOverShift`, in plain arithmetic. */
  lemma ShiftStep(w: int, fa: int, fb: int, ra: int, rb: int, rest: int, x: int, hit: bool)
    requires fa == fb + (if hit then x else 0)
    requires ra == rb + rest * x
    ensures w * fa + ra == w * fb + rb + ((if hit then w else 0) + rest) * x
  {
    if hit {
      assert w * fa == w * fb + w * x;
      Distribute(w, rest, x);
    }
  }

  /** Binding a fresh key sets that field and leaves the others alone. */
  lemma FieldSnoc(ps: seq<(string, Json)>, k: string, v: Json, f: string)
    requires Lookup(ps, k).None?
    ensures Field(ps + [(k, v)], f) == Field(ps, f) + (if f == k then IntOf(v) else 0)
  {
    LookupSnoc(ps, k, v, f);
  }

  /** Binding a fresh key adds its weighted value to the sum. */
  lemma RubricOverSnoc(ps: seq<(string, Json)>, k: string, v: Json, fields: seq<(string, nat)>)
    requires Lookup(ps, k).None?
    ensures RubricOver(ps + [(k, v)], fields) == RubricOver(ps, fields) + WeightIn(fields, k) * IntOf(v)
  {
    forall i | 0 <= i < |fields|
      ensures Field(ps + [(k, v)], fields[i].0) == Field(ps, fields[i].0) + (if fields[i].0 == k then IntOf(v) else 0)
    {
      FieldSnoc(ps, k, v, fields[i].0);
    }
    RubricOverShift(ps + [(k, v)], ps, k, IntOf(v), fields);
  }

  /** Multiplication distributes over a sum. */
  lemma Distribute(a: int, b: int, x: int)
    ensures (a + b) * x == a * x + b * x
  {
  }

  /** Summing the terms of distinct bindings gives the rubric. */
  lemma {:induction false} SumIsRubric(ps: seq<(string, Json)>, ts: seq<int>)
    requires DistinctKeys(ps) && |ts| == |ps|
    requires forall i | 0 <= i < |ps| :: Term(ps[i]) == Ok(ts[i])
    ensures Sum(ts) == Rubric(ps)
    decreases |ps|
  {
    if |ps| > 0 {
      var n := |ts| - 1;
      assert Sum(ts) == Sum(ts[..n]) + ts[n];
      PrefixTerms(ps, ts, n);
      SumIsRubric(ps[..n], ts[..n]);
      LastTerm(ps, ts);
    }
  }

  /** A prefix of distinct bindings with their terms keeps both properties. */
  lemma PrefixTerms(ps: seq<(string, Json)>, ts: seq<int>, n: nat)
    requires DistinctKeys(ps) && |ts| == |ps| && n <= |ps|
    requires forall i | 0 <= i < |ps| :: Term(ps[i]) == Ok(ts[i])
    ensures DistinctKeys(ps[..n]) && |ts[..n]| == |ps[..n]|
    ensures forall i | 0 <= i < n :: Term(ps[..n][i]) == Ok(ts[..n][i])
  {
    assert forall i | 0 <= i < n :: ps[..n][i] == ps[i] && ts[..n][i] == ts[i];
  }

  /** The last binding's term is what it adds to the rubric. */
  lemma LastTerm(ps: seq<(string, Json)>, ts: seq<int>)
    requires DistinctKeys(ps) && |ts| == |ps| > 0
    requires Term(ps[|ps| - 1]) == Ok(ts[|ps| - 1])
    ensures Rubric(ps) == Rubric(ps[..|ps| - 1]) + ts[|ps| - 1]
  {
    var n := |ps| - 1;
    var (k, v) := ps[n];
    var init := ps[..n];
    assert forall i | 0 <= i < n :: init[i].0 != k by {
      forall i | 0 <= i < n
        ensures init[i].0 != k
      {
        assert init[i] == ps[i];
      }
    }
    assert Lookup(init, k).None?;
    RubricOverSnoc(init, k, v, RubricFields);
    assert init + [(k, v)] == ps;
    TermValue((k, v));
  }

  /** A key with a factor is one of the fields. */
  lemma {:induction false} WeightInKey(fields: seq<(string, nat)>, key: string)
    requires WeightIn(fields, key) > 0
    ensures exists i | 0 <= i < |fields| :: fields[i].0 == key
    decreases |fields|
  {
    if fields[0].0 != key {
      WeightInKey(fields[1..], key);
      var i :| 0 <= i < |fields[1..]| && fields[1..][i].0 == key;
      assert fields[i + 1].0 == key;
    }
  }

  /** Each field's key has at least that field's factor. */
  lemma {:induction false} KeyWeight(fields: seq<(string, nat)>, i: nat)
    requires i < |fields|
    ensures WeightIn(fields, fields[i].0) >= fields[i].1
    decreases |fields|
  {
    if i > 0 {
      KeyWeight(fields[1..], i - 1);
    }
  }

  /** Sums over fields whose values agree are equal. */
  lemma {:induction false} RubricOverSame(a: seq<(string, Json)>, b: seq<(string, Json)>, fields: seq<(string, nat)>)
    requires forall i | 0 <= i < |fields| :: Field(a, fields[i].0) == Field(b, fields[i].0)
    ensures RubricOver(a, fields) == RubricOver(b, fields)
    decreases |fields|
  {
    if |fields| > 0 {
      assert forall i | 0 <= i < |fields[1..]| :: fields[1..][i] == fields[i + 1];
      RubricOverSame(a, b, fields[1..]);
    }
  }

  /** Where every item can be added, each present rubric field holds an int or a bool. */
  lemma FieldOkOfItems(m: seq<(string, Json)>, key: string)
    requires Weight(key) > 0
    requires forall i | 0 <= i < |Items(m)| :: Term(Items(m)[i]).Ok?
    ensures FieldOk(m, key)
  {
    ItemsLookup(m, key);
    if Lookup(m, key).Some? {
      var i :| 0 <= i < |Items(m)| && Items(m)[i] == (key, Lookup(m, key).value);
      assert Term(Items(m)[i]).Ok?;
    }
  }

  /** With every rubric field numeric, every item can be added. */
  lemma ItemsOfNumeric(m: seq<(string, Json)>)
    requires Numeric(m)
    ensures forall i | 0 <= i < |Items(m)| :: Term(Items(m)[i]).Ok?
  {
    forall i | 0 <= i < |Items(m)|
      ensures Term(Items(m)[i]).Ok?
    {
      var key := Items(m)[i].0;
      assert Lookup(m, key) == Some(Items(m)[i].1);
      if Weight(key) > 0 {
        WeightInKey(RubricFields, key);
        var j :| 0 <= j < |RubricFields| && RubricFields[j].0 == key;
        assert FieldOk(m, RubricFields[j].0);
      }
    }
  }

  /** A dict's items carry the dict's rubric. */
  lemma ItemsRubric(m: seq<(string, Json)>)
    ensures Rubric(Items(m)) == Rubric(m)
  {
    forall i | 0 <= i < |RubricFields|
      ensures Field(Items(m), RubricFields[i].0) == Field(m, RubricFields[i].0)
    {
      ItemsLookup(m, RubricFields[i].0);
    }
    RubricOverSame(Items(m), m, RubricFields);
  }

  /**
   * `_update_eval` computes the weighted rubric: the total is
   * 3·coverage + 2·accuracy + 2·citation_quality + style + prioritization +
   * completeness, with an absent field counting 0 and every other key
   * ignored. It raises exactly when the reply is not a dict
   * (AttributeError) or a present rubric field is neither an int nor a bool
   * (TypeError).
   */
  lemma ScoreIsRubric(ev: Json)
    ensures Score(ev).Ok? <==> ev.JObject? && Numeric(ev.members)
    ensures Score(ev).Ok? ==> Score(ev).value == Rubric(ev.members)
    ensures Score(ev).Err? ==> Score(ev).error == if ev.JObject? then TypeError else AttributeError
  {
    if ev.JObject? {
      var m := ev.members;
      match Collect(Items(m), Term)
      case Ok(ts) =>
        TotalOfItems(m, ts);
      case Err(e) =>
        if Numeric(m) {
          ItemsOfNumeric(m);
          assert false;
        }
        assert Term(Items(m)[FirstErr(Items(m), Term).value]).Err?;
    }
  }

  /** Items that can all be added sum to the rubric, and every rubric field is numeric. */
  lemma TotalOfItems(m: seq<(string, Json)>, ts: seq<int>)
    requires Collect(Items(m), Term) == Ok(ts)
    ensures Sum(ts) == Rubric(m) && Numeric(m)
  {
    var items := Items(m);
    assert forall i | 0 <= i < |items| :: Term(items[i]) == Ok(ts[i]);
    ItemsDistinct(m);
    SumIsRubric(items, ts);
    ItemsRubric(m);
    NumericOfItems(m);
  }

  /** Where every item can be added, every rubric field is numeric. */
  lemma NumericOfItems(m: seq<(string, Json)>)
    requires forall i | 0 <= i < |Items(m)| :: Term(Items(m)[i]).Ok?
    ensures Numeric(m)
  {
    forall i | 0 <= i < |RubricFields|
      ensures FieldOk(m, RubricFields[i].0)
    {
      KeyWeight(RubricFields, i);
      FieldOkOfItems(m, RubricFields[i].0);
    }
  }

  /** The field is present and scored 1 to 5, or absent. */
  predicate InRange(m: seq<(string, Json)>, key: string)
  {
    Lookup(m, key).None? || (AsInt(Lookup(m, key).value).Some? && 1 <= AsInt(Lookup(m, key).value).value <= 5)
  }

  /** The field is present and scored 5. */
  predicate Five(m: seq<(string, Json)>, key: string)
  {
    Lookup(m, key).Some? && AsInt(Lookup(m, key).value) == Some(5)
  }

  /** A positive factor times a count of 0 to 5 reaches five times the factor only at 5. */
  lemma Scaled(w: int, f: int)
    requires w > 0 && 0 <= f <= 5
    ensures w * f <= w * 5 && (w * f == w * 5 <==> f == 5)
  {
    if f < 5 {
      assert w * f <= w * 4 by {
        assert w * (4 - f) >= 0;
      }
    }
  }

  /** With positive factors and fields scored 1 to 5 or absent, the sum reaches five times the factors only when all are 5. */
  lemma {:induction false} BoundedRubric(m: seq<(string, Json)>, fields: seq<(string, nat)>)
    requires forall i | 0 <= i < |fields| :: fields[i].1 > 0 && InRange(m, fields[i].0)
    ensures RubricOver(m, fields) <= 5 * TotalWeight(fields)
    ensures RubricOver(m, fields) == 5 * TotalWeight(fields) <==> forall i | 0 <= i < |fields| :: Five(m, fields[i].0)
    decreases |fields|
  {
    if |fields| > 0 {
      var (f, w) := fields[0];
      assert forall i | 0 <= i < |fields[1..]| :: fields[1..][i] == fields[i + 1];
      BoundedRubric(m, fields[1..]);
      assert InRange(m, f);
      Scaled(w, Field(m, f));
      assert Field(m, f) == 5 <==> Five(m, f);
      if forall i | 0 <= i < |fields| :: Five(m, fields[i].0) {
        assert forall i | 0 <= i < |fields[1..]| :: Five(m, fields[1..][i].0);
      }
    }
  }

  /**
   * With every present rubric field scored 1 to 5 the total is at most 50:
   * completeness weighs 1, so the factors sum to 10, not the 11 the maxima
   * suggest. PASS then needs all six fields present and scored 5.
   */
  lemma PassNeedsAllFives(ev: Json)
    requires ev.JObject?
    requires forall i | 0 <= i < |RubricFields| :: InRange(ev.members, RubricFields[i].0)
    ensures Score(ev).Ok? && Score(ev).value <= 50
    ensures Verdict(Score(ev).value) == Pass <==> forall i | 0 <= i < |RubricFields| :: Five(ev.members, RubricFields[i].0)
  {
    ScoreIsRubric(ev);
    RubricWeight();
    BoundedRubric(ev.members, RubricFields);
    var r := Rubric(ev.members);
    assert r <= 50 && (Verdict(r) == Pass <==> r == 50);
  }

  /** The rubric's factors are positive and sum to 10. */
  lemma RubricWeight()
    ensures TotalWeight(RubricFields) == 10
    ensures forall i | 0 <= i < |RubricFields| :: RubricFields[i].1 > 0
  {
  }

  // ---------------------------------------------------------------------
  // _update_status

  /** The note recorded when the reply cannot be read. */
  const ParseErrorNote: Note := Some("Error parsing evaluation")

  /** `json.loads(_extract_tag(content, "ir")).get("questions", [])`. */
  function IrQuestions(content: string, loads: string -> Option<Json>): Result<Json, PyError>
  {
    match ExtractTag(content, "ir")
    case None => Err(TypeError)
    case Some(text) =>
      match loads(text)
      case None => Err(JsonDecodeError)
      case Some(payload) => GetOr(payload, "questions", JArray([]))
  }

  /** `_update_eval(json.loads(_extract_tag(content, "eval")))`'s total. */
  function EvalScore(content: string, loads: string -> Option<Json>): Result<int, PyError>
  {
    match ExtractTag(content, "eval")
    case None => Err(TypeError)
    case Some(text) =>
      match loads(text)
      case None => Err(JsonDecodeError)
      case Some(ev) => Score(ev)
  }

  /** What one `_update_status` leaves: the questions, the notes it appended, the status. */
  datatype Update = Update(questions: Json, added: seq<Note>, status: EvalStatus)

  /**
   * `_update_status(content)`; a reply that is not a string fails at the
   * first tag test. The except branch empties the questions, sets FAIL and
   * appends the parse-error note, after the reply's own note when that was
   * already recorded.
   */
  function StatusUpdate(content: Option<string>, loads: string -> Option<Json>): Update
  {
    if content.None? then Update(JArray([]), [ParseErrorNote], Fail)
    else
      var c := content.value;
      match IrQuestions(c, loads)
      case Err(_) => Update(JArray([]), [ParseErrorNote], Fail)
      case Ok(qs) =>
        match EvalScore(c, loads)
        case Err(_) => Update(JArray([]), [ExtractTag(c, "note"), ParseErrorNote], Fail)
        case Ok(total) => Update(qs, [ExtractTag(c, "note")], Verdict(total))
  }

  /** The reply could be read through to its score. */
  predicate Readable(content: Option<string>, loads: string -> Option<Json>)
  {
    content.Some? && IrQuestions(content.value, loads).Ok? && EvalScore(content.value, loads).Ok?
  }

  /**
   * Every call appends one or two notes; two exactly when the `<ir>` block
   * was read, so the reply's note was recorded, and the `<eval>` block then
   * failed. The last note appended is the reply's note when it was read and
   * the parse-error note when it was not.
   */
  lemma NoteBookkeeping(content: Option<string>, loads: string -> Option<Json>)
    ensures var u := StatusUpdate(content, loads);
            1 <= |u.added| <= 2 &&
            (|u.added| == 2 <==> content.Some? && IrQuestions(content.value, loads).Ok? && EvalScore(content.value, loads).Err?)
    ensures var u := StatusUpdate(content, loads);
            u.added[|u.added| - 1] == if Readable(content, loads) then ExtractTag(content.value, "note") else ParseErrorNote
    ensures var u := StatusUpdate(content, loads);
            |u.added| == 2 ==> u.added[0] == ExtractTag(content.value, "note")
  {
  }

  /**
   * PASS exactly when the reply was read and its rubric total is at least
   * 50 of 55; an unreadable reply fails and leaves no questions.
   */
  lemma StatusRule(content: Option<string>, loads: string -> Option<Json>)
    ensures var u := StatusUpdate(content, loads);
            u.status == Pass <==> Readable(content, loads) && EvalScore(content.value, loads).value >= 50
    ensures var u := StatusUpdate(content, loads);
            !Readable(content, loads) ==> u.status == Fail && u.questions == JArray([])
    ensures var u := StatusUpdate(content, loads);
            Readable(content, loads) ==> u.questions == IrQuestions(content.value, loads).value
    ensures StatusUpdate(content, loads).status != Incomplete
  {
  }

  // ---------------------------------------------------------------------
  // The prompt

  /** The prompt `evaluate` sends, up to the generator's notes; `irContext` is None when the IR context is falsy. */
  function PromptHead(system: string, topic: string, report: string, irContext: Option<string>): string
  {
    system + "\nTopic document:\n" + topic + "\n \nReport:\n" + report + "\nIR Context:\n" +
    (if irContext.None? then "First round no IR context yet" else irContext.value) + "\nGenerator Comments:\n"
  }

  /** The prompt `evaluate` sends: both note listings follow the topic, the report and the IR context. */
  function Prompt(system: string, topic: string, report: string, irContext: Option<string>,
                  genNotes: seq<Note>, myNotes: seq<Note>): string
  {
    PromptHead(system, topic, report, irContext) + Serialized(genNotes) + ("\n Your Comments:\n" + Serialized(myNotes))
  }

  /** The generator's latest comment is in the prompt, numbered after the earlier ones. */
  lemma PromptShowsComment(system: string, topic: string, report: string, irContext: Option<string>,
                           genNotes: seq<Note>, comment: Note, myNotes: seq<Note>)
    ensures Contains(Prompt(system, topic, report, irContext, genNotes + [comment], myNotes), Line(|genNotes|, comment))
  {
    var notes := genNotes + [comment];
    SerializedShows(notes, |genNotes|);
    ContainsWithin(PromptHead(system, topic, report, irContext), Serialized(notes), "\n Your Comments:\n" + Serialized(myNotes),
                   Line(|genNotes|, comment));
  }

  // ---------------------------------------------------------------------
  // The evaluator

  class Evaluator {
    var topic: string
    var myNotes: seq<Note>
    var genNotes: seq<Note>
    var status: EvalStatus
    /** None until the first `_update_status` assigns `self.questions`. */
    var questions: Option<Json>

    constructor (topic: string)
      ensures this.topic == topic && myNotes == [] && genNotes == [] && status == Incomplete && questions.None?
    {
      this.topic := topic;
      myNotes := [];
      genNotes := [];
      status := Incomplete;
      questions := None;
    }

    /** `serialize_notes(mine)`. */
    function SerializeNotes(mine: bool): string
      reads this
    {
      Serialized(if mine then myNotes else genNotes)
    }

    /** `_update_eval(ev)`: the status follows the total; a raised exception leaves it. */
    method UpdateEval(ev: Json) returns (raised: Option<PyError>)
      modifies this
      ensures raised.Some? <==> Score(ev).Err?
      ensures raised.Some? ==> raised.value == Score(ev).error
      ensures status == if Score(ev).Ok? then Verdict(Score(ev).value) else old(status)
      ensures topic == old(topic) && myNotes == old(myNotes) && genNotes == old(genNotes) && questions == old(questions)
    {
      if !ev.JObject? {
        return Some(AttributeError);
      }
      var total := Tally(Items(ev.members));
      if total.Err? {
        return Some(total.error);
      }
      status := Verdict(total.value);
      return None;
    }

    /** The except branch of `_update_status`. */
    method Recover()
      modifies this
      ensures questions == Some(JArray([])) && status == Fail && myNotes == old(myNotes) + [ParseErrorNote]
      ensures topic == old(topic) && genNotes == old(genNotes)
    {
      questions := Some(JArray([]));
      status := Fail;
      myNotes := myNotes + [ParseErrorNote];
    }

    /** `_update_status(content)`. */
    method UpdateStatus(content: Option<string>, loads: string -> Option<Json>)
      modifies this
      ensures var u := StatusUpdate(content, loads);
              questions == Some(u.questions) && myNotes == old(myNotes) + u.added && status == u.status
      ensures topic == old(topic) && genNotes == old(genNotes)
    {
      if content.None? {
        Recover();
        return;
      }
      var c := content.value;
      var note := ExtractTag(c, "note");
      var qs := IrQuestions(c, loads);
      if qs.Err? {
        Recover();
        return;
      }
      questions := Some(qs.value);
      myNotes := myNotes + [note];
      assert old(myNotes) + [note] + [ParseErrorNote] == old(myNotes) + [note, ParseErrorNote];
      var block := ExtractTag(c, "eval");
      if block.None? {
        Recover();
        return;
      }
      var ev := loads(block.value);
      if ev.None? {
        Recover();
        return;
      }
      var raised := UpdateEval(ev.value);
      if raised.Some? {
        Recover();
      }
    }

    /**
     * `evaluate(report, ir_context, generator_comment)`: the comment is
     * recorded before the prompt is built, and the reply to that prompt
     * updates the evaluator; the result is the last own note and the
     * questions.
     */
    method Evaluate(system: string, report: string, irContext: Option<string>, comment: Note,
                    llm: string -> string, loads: string -> Option<Json>) returns (note: Note, qs: Json)
      modifies this
      ensures genNotes == old(genNotes) + [comment] && topic == old(topic)
      ensures var u := StatusUpdate(Some(llm(Prompt(system, topic, report, irContext, genNotes, old(myNotes)))), loads);
              myNotes == old(myNotes) + u.added && status == u.status && questions == Some(u.questions) &&
              note == u.added[|u.added| - 1] && qs == u.questions
    {
      genNotes := genNotes + [comment];
      var prompt := Prompt(system, topic, report, irContext, genNotes, myNotes);
      UpdateStatus(Some(llm(prompt)), loads);
      NoteBookkeeping(Some(llm(prompt)), loads);
      note := myNotes[|myNotes| - 1];
      qs := questions.value;
    }
  }
}
