// The report generator (src/ReportGenerator/report_generator.py): each round
// it records the evaluator's note, sends the topic, its previous report, both
// note listings, the evaluation and the IR context to the model, and keeps
// the `<report>` and `<note>` blocks of the reply. The model call and the
// prompt's system text are parameters; the log file is not modelled.
module ReportGenerator {
  import opened Wrappers
  import opened Strings
  import opened PyText
  import opened ReportNotes

  /** What `x or placeholder` shows for an optional text: the placeholder when the text is falsy. */
  function OrElse(x: Option<string>, placeholder: string): (r: string)
    ensures Falsy(x) ==> r == placeholder
    ensures !Falsy(x) ==> r == x.value
  {
    if Falsy(x) then placeholder else x.value
  }

  /** The previous report's part of the prompt. */
  function ReportShown(report: Option<string>): string
  {
    "\nPrevious report: \n" + OrElse(report, "First round no report yet") + "\nYour notes:\n"
  }

  /** The prompt `generate_report` sends, up to its own notes. */
  function PromptHead(system: string, topic: string, report: Option<string>): string
  {
    system + "\nTopic:\n" + topic + ReportShown(report)
  }

  /** The prompt after the evaluator's notes. */
  function PromptTail(evaluation: string, irContext: Option<string>): string
  {
    "\nEvaluation:\n" + evaluation + "\nIR context: \n" + OrElse(irContext, "First round no IR context yet") + "\n"
  }

  /** The prompt `generate_report` sends: its own notes come before the evaluator's. */
  function Prompt(system: string, topic: string, report: Option<string>, myNotes: seq<Note>,
                  evalNotes: seq<Note>, evaluation: string, irContext: Option<string>): string
  {
    PromptHead(system, topic, report) + Serialized(myNotes) + ("Evaluation notes: \n" + Serialized(evalNotes) + PromptTail(evaluation, irContext))
  }

  /** The evaluator's latest note is in the prompt, numbered after the earlier ones. */
  lemma PromptShowsEvalNote(system: string, topic: string, report: Option<string>, myNotes: seq<Note>,
                            evalNotes: seq<Note>, note: Note, evaluation: string, irContext: Option<string>)
    ensures Contains(Prompt(system, topic, report, myNotes, evalNotes + [note], evaluation, irContext), Line(|evalNotes|, note))
  {
    var notes := evalNotes + [note];
    SerializedShows(notes, |evalNotes|);
    ContainsWithin("Evaluation notes: \n", Serialized(notes), PromptTail(evaluation, irContext), Line(|evalNotes|, note));
    ContainsWithin(PromptHead(system, topic, report) + Serialized(myNotes),
                   "Evaluation notes: \n" + Serialized(notes) + PromptTail(evaluation, irContext), [],
                   Line(|evalNotes|, note));
    assert PromptHead(system, topic, report) + Serialized(myNotes) + ("Evaluation notes: \n" + Serialized(notes) + PromptTail(evaluation, irContext)) + []
        == Prompt(system, topic, report, myNotes, notes, evaluation, irContext);
  }

  /** Each of the generator's own notes is in the prompt, numbered from 0. */
  lemma PromptShowsOwnNote(system: string, topic: string, report: Option<string>, myNotes: seq<Note>,
                           evalNotes: seq<Note>, evaluation: string, irContext: Option<string>, i: nat)
    requires i < |myNotes|
    ensures Contains(Prompt(system, topic, report, myNotes, evalNotes, evaluation, irContext), Line(i, myNotes[i]))
  {
    SerializedShows(myNotes, i);
    ContainsWithin(PromptHead(system, topic, report), Serialized(myNotes),
                   "Evaluation notes: \n" + Serialized(evalNotes) + PromptTail(evaluation, irContext), Line(i, myNotes[i]));
  }

  /** The previous report is in the prompt, or the first-round placeholder when there is none. */
  lemma PromptShowsReport(system: string, topic: string, report: Option<string>, myNotes: seq<Note>,
                          evalNotes: seq<Note>, evaluation: string, irContext: Option<string>)
    ensures Contains(Prompt(system, topic, report, myNotes, evalNotes, evaluation, irContext), ReportShown(report))
    ensures ReportShown(report) == "\nPrevious report: \n" + (if Falsy(report) then "First round no report yet" else report.value) + "\nYour notes:\n"
  {
    var shown := ReportShown(report);
    var intro := system + "\nTopic:\n" + topic;
    var notes, after := Serialized(myNotes), "Evaluation notes: \n" + Serialized(evalNotes) + PromptTail(evaluation, irContext);
    assert OccursAt(shown, shown, 0);
    ContainsWithin(intro, shown, notes + after, shown);
    Regroup3(intro, shown, notes, after);
  }

  /**
   * A reply written as asked, with a `<report>` block and then a `<note>`
   * block, gives back both bodies, stripped.
   */
  lemma ReplyRead(pre: string, report: string, mid: string, note: string, post: string)
    requires '<' !in pre && '<' !in report && '<' !in mid && '<' !in note
    ensures var reply := pre + OpenTag("report") + report + CloseTag("report") + mid + OpenTag("note") + note + CloseTag("note") + post;
            ExtractTag(reply, "report") == Some(Strip(report)) && ExtractTag(reply, "note") == Some(Strip(note))
  {
    var tail := mid + OpenTag("note") + note + CloseTag("note") + post;
    ExtractTagOf(pre, "report", report, tail);
    var head := pre + OpenTag("report") + report + CloseTag("report") + mid;
    HeadOpensReport(pre, report, mid);
    ExtractTagOf(head, "note", note, post);
    Regroup(pre + OpenTag("report") + report + CloseTag("report"), mid, OpenTag("note"), note, CloseTag("note"), post);
  }

  /** Concatenation regrouped: the last two parts may be joined first. */
  lemma Regroup3<T>(a: seq<T>, b: seq<T>, c: seq<T>, d: seq<T>)
    ensures a + b + (c + d) == a + b + c + d
  {
  }

  /** Concatenation regrouped: the five parts after `x` may be joined first. */
  lemma Regroup<T>(x: seq<T>, a: seq<T>, b: seq<T>, c: seq<T>, d: seq<T>, e: seq<T>)
    ensures x + (a + b + c + d + e) == x + a + b + c + d + e
  {
  }

  /** The text before the `<note>` block opens only the report's tags. */
  lemma HeadOpensReport(pre: string, report: string, mid: string)
    requires '<' !in pre && '<' !in report && '<' !in mid
    ensures OpensOthers(pre + OpenTag("report") + report + CloseTag("report") + mid, "note")
  {
    assert OpensOthers(OpenTag("report"), "note") && OpensOthers(CloseTag("report"), "note");
    OpensOthersAppend(pre, OpenTag("report"), "note");
    OpensOthersAppend(pre + OpenTag("report"), report, "note");
    OpensOthersAppend(pre + OpenTag("report") + report, CloseTag("report"), "note");
    OpensOthersAppend(pre + OpenTag("report") + report + CloseTag("report"), mid, "note");
  }

  class Generator {
    var topic: string
    /** `cur_report`: None before the first reply and whenever the reply has no `<report>` block. */
    var curReport: Option<string>
    var evalNotes: seq<Note>
    var myNotes: seq<Note>

    constructor (topic: string)
      ensures this.topic == topic && curReport.None? && evalNotes == [] && myNotes == []
    {
      this.topic := topic;
      curReport := None;
      evalNotes := [];
      myNotes := [];
    }

    /** `serialize_notes(mine)`. */
    function SerializeNotes(mine: bool): string
      reads this
    {
      Serialized(if mine then myNotes else evalNotes)
    }

    /**
     * `_update_status(content)`: the report is the `<report>` block's body
     * and the `<note>` block's body is recorded, each None when its block
     * is missing. A reply that is not a string (None here) fails at the
     * first tag test, and the except branch keeps the reply itself as the
     * report.
     */
    method UpdateStatus(content: Option<string>)
      modifies this
      ensures content.Some? ==> curReport == ExtractTag(content.value, "report") && myNotes == old(myNotes) + [ExtractTag(content.value, "note")]
      ensures content.None? ==> curReport == None && myNotes == old(myNotes)
      ensures topic == old(topic) && evalNotes == old(evalNotes)
    {
      if content.None? {
        curReport := content;
        return;
      }
      curReport := ExtractTag(content.value, "report");
      myNotes := myNotes + [ExtractTag(content.value, "note")];
    }

    /**
     * `generate_report(ir_context, note, eval_)`: the evaluator's note is
     * recorded before the prompt is built, so the prompt lists it; the
     * reply to that prompt sets the report and adds one own note, and the
     * result is the new report with that note.
     */
    method GenerateReport(system: string, irContext: Option<string>, note: Note, evaluation: string,
                          llm: string -> string) returns (report: Option<string>, latest: Note)
      modifies this
      ensures evalNotes == old(evalNotes) + [note] && topic == old(topic)
      ensures var reply := llm(Prompt(system, topic, old(curReport), old(myNotes), evalNotes, evaluation, irContext));
              curReport == ExtractTag(reply, "report") && myNotes == old(myNotes) + [ExtractTag(reply, "note")] &&
              report == curReport && latest == ExtractTag(reply, "note")
    {
      evalNotes := evalNotes + [note];
      var prompt := Prompt(system, topic, curReport, myNotes, evalNotes, evaluation, irContext);
      UpdateStatus(Some(llm(prompt)));
      report := curReport;
      latest := myNotes[|myNotes| - 1];
    }
  }
}
