// The numbered note listing that the report evaluator and the report
// generator both put into their prompts (`serialize_notes`, written the same
// way in both classes).
module ReportNotes {
  import opened Wrappers
  import opened Strings
  import opened Decimal

  /** A recorded note: the contents of a `<note>` tag, or None when the tag was missing. */
  type Note = Option<string>

  /** What a falsy note (None or "") is shown as. */
  const Placeholder: string := "First round no note yet or trouble parsing eval note"

  /** Python truthiness of a note. */
  predicate Falsy(n: Note)
  {
    n.None? || n.value == ""
  }

  /** The line for the `i`-th note: `"{i}. Evaluation note: {note or placeholder}"`. */
  function Line(i: nat, n: Note): string
  {
    ToDecimal(i) + ". Evaluation note: " + (if Falsy(n) then Placeholder else n.value)
  }

  /** The lines of `enumerate(notes)`, numbered from 0. */
  function Lines(notes: seq<Note>): (r: seq<string>)
    ensures |r| == |notes| && forall i | 0 <= i < |notes| :: r[i] == Line(i, notes[i])
    decreases |notes|
  {
    if |notes| == 0 then [] else Lines(notes[..|notes| - 1]) + [Line(|notes| - 1, notes[|notes| - 1])]
  }

  /** `serialize_notes`: the lines joined by newlines, with a final newline. */
  function Serialized(notes: seq<Note>): (r: string)
    ensures |r| > 0 && r[|r| - 1] == '\n'
  {
    Join("\n", Lines(notes)) + "\n"
  }

  /** No notes serialise to a lone newline. */
  lemma SerializedEmpty()
    ensures Serialized([]) == "\n"
  {
  }

  /**
   * Recording one more note adds exactly one line, numbered by the count of
   * notes before it, after what was already listed.
   */
  lemma SerializedAppend(notes: seq<Note>, n: Note)
    ensures Serialized(notes + [n]) == (if notes == [] then "" else Join("\n", Lines(notes)) + "\n") + Line(|notes|, n) + "\n"
  {
    LinesSnoc(notes, n);
    JoinSnoc("\n", Lines(notes), Line(|notes|, n));
  }

  /** The lines of one more note. */
  lemma LinesSnoc(notes: seq<Note>, n: Note)
    ensures Lines(notes + [n]) == Lines(notes) + [Line(|notes|, n)]
  {
    assert (notes + [n])[..|notes|] == notes;
  }

  /** Every note has its numbered line in the listing; a falsy one shows the placeholder. */
  lemma SerializedShows(notes: seq<Note>, i: nat)
    requires i < |notes|
    ensures Contains(Serialized(notes), Line(i, notes[i]))
    ensures Falsy(notes[i]) ==> Contains(Serialized(notes), ToDecimal(i) + ". Evaluation note: " + Placeholder)
  {
    JoinContains("\n", Lines(notes), i);
    ContainsWithin([], Join("\n", Lines(notes)), "\n", Line(i, notes[i]));
    assert [] + Join("\n", Lines(notes)) + "\n" == Serialized(notes);
  }
}
