// Argument handling of the two document-selection entry points around the
// shared reassembly: the daemon's `run` (a list of arguments in, one JSON
// text or an exception out) and the older command-line `main` (flags parsed
// in a loop, exit codes, one printed JSON line per result).
module DocumentSelection {
  import opened Wrappers
  import opened Strings
  import opened JavaExceptions
  import opened Reassembly

  const SegmentFlag := "--asSegments"

  /** `MAX_SEG_IDS` of the daemon's `run`. */
  const MaxSegIds := 6

  /** The JSON text `run` returns: an array of `{id, segment}` or one `{id, fullText}`. */
  datatype Selection = Segments(items: seq<SegmentOut>) | Full(doc: FullOut)

  /**
   * `List.remove(Object)`: drops the first occurrence of `x`, and says
   * whether there was one.
   */
  function RemoveFirst(args: seq<string>, x: string): (r: (seq<string>, bool))
    ensures r.1 <==> x in args
    ensures !r.1 ==> r.0 == args
    ensures r.1 ==> exists i :: 0 <= i < |args| && args[i] == x && x !in args[..i] && r.0 == args[..i] + args[i + 1..]
  {
    match IndexOf(args, x)
    case None => (args, false)
    case Some(i) => (args[..i] + args[i + 1..], true)
  }

  /**
   * Segment mode: every id fetched, in input order; joining the futures in
   * that order surfaces the first failure, wrapped in a `CompletionException`.
   */
  function SegmentsOf(ids: seq<string>, terms: seq<Term>): (r: Result<seq<SegmentOut>, JavaException>)
    ensures r.Ok? <==> FirstErr(ids, id => FetchSegment(id, terms)).None?
    ensures r.Err? ==> r.error == Completion(FetchSegment(ids[FirstErr(ids, id => FetchSegment(id, terms)).value], terms).error)
    ensures r.Ok? ==> |r.value| == |ids| &&
                      forall i :: 0 <= i < |ids| ==> Ok(r.value[i]) == FetchSegment(ids[i], terms)
  {
    match Collect(ids, id => FetchSegment(id, terms))
    case Err(e) => Err(Completion(e))
    case Ok(items) => Ok(items)
  }

  method FetchSegments(ids: seq<string>, terms: seq<Term>) returns (r: Result<seq<SegmentOut>, JavaException>)
    ensures r == SegmentsOf(ids, terms)
  {
    var fetch := id => FetchSegment(id, terms);
    var out: seq<SegmentOut> := [];
    for i := 0 to |ids|
      invariant Collect(ids[..i], fetch) == Ok(out)
    {
      var res := FetchSegment(ids[i], terms);
      if res.Err? {
        CollectStepFailure(ids, fetch, i);
        CollectPrefixFailure(ids, fetch, i + 1);
        return Err(Completion(res.error));
      }
      CollectStep(ids, fetch, i);
      out := out + [res.value];
    }
    assert ids[..|ids|] == ids;
    r := Ok(out);
  }

  /**
   * The daemon's `run`: the first `--asSegments` is removed and selects
   * segment mode; no ids, or more than `MaxSegIds` in segment mode, is an
   * `IllegalArgumentException`; full mode uses the first id only. A failed
   * fetch reaches the caller wrapped in a `CompletionException`.
   */
  function Selected(args: seq<string>, terms: seq<Term>): (r: Result<Selection, JavaException>)
    ensures var (ids, asSegments) := RemoveFirst(args, SegmentFlag);
            (|ids| == 0 ==> r == Err(IllegalArgument("no ids supplied"))) &&
            (|ids| > 0 && asSegments && |ids| > MaxSegIds ==>
               r == Err(IllegalArgument("max 6 ids with --asSegments"))) &&
            (|ids| > 0 && asSegments && |ids| <= MaxSegIds ==>
               (r.Ok? <==> FirstErr(ids, id => FetchSegment(id, terms)).None?) &&
               (r.Ok? ==> r.value.Segments? && |r.value.items| == |ids| &&
                          forall i :: 0 <= i < |ids| ==> Ok(r.value.items[i]) == FetchSegment(ids[i], terms)) &&
               (r.Err? ==>
                  r.error == Completion(FetchSegment(ids[FirstErr(ids, id => FetchSegment(id, terms)).value], terms).error))) &&
            (|ids| > 0 && !asSegments ==>
               (r.Ok? <==> Assembled(ids[0], terms).Ok?) &&
               (r.Ok? ==> r.value == Full(Assembled(ids[0], terms).value)) &&
               (r.Err? ==> r.error == Completion(Assembled(ids[0], terms).error)))
  {
    var (ids, asSegments) := RemoveFirst(args, SegmentFlag);
    if |ids| == 0 then Err(IllegalArgument("no ids supplied"))
    else if asSegments && |ids| > MaxSegIds then Err(IllegalArgument("max 6 ids with --asSegments"))
    else if asSegments then
      match SegmentsOf(ids, terms)
      case Err(e) => Err(e)
      case Ok(items) => Ok(Segments(items))
    else
      match Assembled(ids[0], terms)
      case Err(e) => Err(Completion(e))
      case Ok(doc) => Ok(Full(doc))
  }

  method Run(args: seq<string>, terms: seq<Term>) returns (r: Result<Selection, JavaException>)
    ensures r == Selected(args, terms)
  {
    var removed := RemoveFirst(args, SegmentFlag);
    var ids, asSegments := removed.0, removed.1;
    if |ids| == 0 {
      return Err(IllegalArgument("no ids supplied"));
    }
    if asSegments && |ids| > MaxSegIds {
      return Err(IllegalArgument("max 6 ids with --asSegments"));
    }
    if !asSegments && |ids| > 1 {
      ids := [ids[0]];
    }
    if asSegments {
      var segments := FetchSegments(ids, terms);
      if segments.Err? {
        return Err(segments.error);
      }
      return Ok(Segments(segments.value));
    } else {
      var full := FetchFull(ids[0], terms);
      if full.Err? {
        return Err(Completion(full.error));
      }
      return Ok(Full(full.value));
    }
  }

  /**
   * In segment mode more than `MaxSegIds` ids are refused as a whole: `run`
   * throws its `IllegalArgumentException` and no segment is fetched or
   * returned, never a truncated list.
   */
  lemma SegmentCapRejects(args: seq<string>, terms: seq<Term>)
    requires SegmentFlag in args && |args| > MaxSegIds + 1
    ensures Selected(args, terms) == Err(IllegalArgument("max 6 ids with --asSegments"))
  {
    var (ids, asSegments) := RemoveFirst(args, SegmentFlag);
    assert asSegments;
    var i :| 0 <= i < |args| && args[i] == SegmentFlag && SegmentFlag !in args[..i] && ids == args[..i] + args[i + 1..];
    assert |ids| == |args| - 1;
  }
}

// The older command-line `main`: every `--asSegments` sets segment mode,
// every other argument is an id; bad argument counts exit with code 1, and a
// failed fetch escapes `main` after the lines already printed.
module CliDocumentSelection {
  import opened Wrappers
  import opened Sorting
  import opened JavaExceptions
  import opened Reassembly

  const SegmentFlag := "--asSegments"

  /** `MAX_SEG_IDS` of the command-line version. */
  const MaxSegIds := 4

  /** One printed JSON line. */
  datatype Line = SegmentLine(segment: SegmentOut) | FullLine(doc: FullOut)

  /**
   * How `main` ends: `System.exit` with a message on standard error, normal
   * completion, or an exception escaping after some lines were printed.
   */
  datatype Outcome =
    | Exited(code: int, message: string)
    | Finished(printed: seq<Line>)
    | Aborted(printed: seq<Line>, error: JavaException)

  predicate IsId(arg: string)
  {
    arg != SegmentFlag
  }

  /** The ids of the command line, in order. */
  function Ids(args: seq<string>): seq<string>
  {
    Filter(args, IsId)
  }

  /** The first `n` printed lines are the segments of the first `n` ids. */
  predicate PrintedSegments(ids: seq<string>, terms: seq<Term>, printed: seq<Line>, n: nat)
    requires n <= |ids|
  {
    |printed| == n &&
    forall i :: 0 <= i < n ==> printed[i].SegmentLine? && Ok(printed[i].segment) == FetchSegment(ids[i], terms)
  }

  /**
   * Segment mode: one line per id in order when all are found; otherwise the
   * lines before the first id not found, and that id's exception.
   */
  ghost predicate PrintsSegments(ids: seq<string>, terms: seq<Term>, outcome: Outcome)
  {
    match FirstErr(ids, id => FetchSegment(id, terms))
    case None => outcome.Finished? && PrintedSegments(ids, terms, outcome.printed, |ids|)
    case Some(k) =>
      outcome.Aborted? && outcome.error == FetchSegment(ids[k], terms).error &&
      PrintedSegments(ids, terms, outcome.printed, k)
  }

  /** The flag/id loop: segment mode iff the flag occurs; the other arguments, in order, are the ids. */
  method ParseArgs(args: seq<string>) returns (asSegments: bool, ids: seq<string>)
    ensures asSegments <==> SegmentFlag in args
    ensures ids == Ids(args)
  {
    asSegments := false;
    ids := [];
    for i := 0 to |args|
      invariant asSegments <==> SegmentFlag in args[..i]
      invariant ids == Filter(args[..i], IsId)
    {
      assert args[..i + 1][..i] == args[..i];
      assert args[..i + 1] == args[..i] + [args[i]];
      if args[i] == SegmentFlag {
        asSegments := true;
      } else {
        ids := ids + [args[i]];
      }
    }
    assert args[..|args|] == args;
  }

  /** The ids `Filter` keeps are exactly the arguments other than the flag. */
  lemma {:induction false} IdsAreNonFlags(args: seq<string>)
    ensures forall a :: a in Filter(args, IsId) <==> a in args && a != SegmentFlag
    decreases |args|
  {
    if |args| > 0 {
      IdsAreNonFlags(args[..|args| - 1]);
      assert args == args[..|args| - 1] + [args[|args| - 1]];
    }
  }

  /** The segment-mode loop: print each id's segment, stopping at the first exception. */
  method PrintSegments(ids: seq<string>, terms: seq<Term>) returns (outcome: Outcome)
    ensures PrintsSegments(ids, terms, outcome)
  {
    var printed: seq<Line> := [];
    for i := 0 to |ids|
      invariant PrintedSegments(ids, terms, printed, i)
    {
      var n := FetchSegment(ids[i], terms);
      if n.Err? {
        FirstErrAt(ids, id => FetchSegment(id, terms), i);
        outcome := Aborted(printed, n.error);
        assert PrintsSegments(ids, terms, outcome);
        return;
      }
      printed := printed + [SegmentLine(n.value)];
    }
    assert FirstErr(ids, id => FetchSegment(id, terms)).None?;
    outcome := Finished(printed);
    assert PrintsSegments(ids, terms, outcome);
  }

  /**
   * `main`: exit 1 when there are no ids or more than `MaxSegIds` in segment
   * mode; full mode prints the first id's document; segment mode prints one
   * line per id in order and stops at the first id that is not found.
   */
  method RunCli(args: seq<string>, terms: seq<Term>) returns (outcome: Outcome)
    ensures |Ids(args)| == 0 ==> outcome == Exited(1, "No document IDs supplied.")
    ensures |Ids(args)| > 0 && SegmentFlag in args && |Ids(args)| > MaxSegIds ==>
              outcome == Exited(1, "With --asSegments you may pass up to 4 IDs.")
    ensures |Ids(args)| > 0 && SegmentFlag in args && |Ids(args)| <= MaxSegIds ==>
              PrintsSegments(Ids(args), terms, outcome)
    ensures |Ids(args)| > 0 && SegmentFlag !in args ==>
              outcome == (match Assembled(Ids(args)[0], terms)
                          case Ok(doc) => Finished([FullLine(doc)])
                          case Err(e) => Aborted([], e))
  {
    var asSegments, ids := ParseArgs(args);
    if |ids| == 0 {
      return Exited(1, "No document IDs supplied.");
    }
    if asSegments && |ids| > MaxSegIds {
      return Exited(1, "With --asSegments you may pass up to 4 IDs.");
    }
    if !asSegments && |ids| > 1 {
      ids := [ids[0]];
    }
    if asSegments {
      outcome := PrintSegments(ids, terms);
    } else {
      var n := FetchFull(ids[0], terms);
      if n.Err? {
        return Aborted([], n.error);
      }
      return Finished([FullLine(n.value)]);
    }
  }
}
