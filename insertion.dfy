/**
 * The result shaping of Big::insert. The streaming call itself (Table::insertRows) is
 * outside the model: its response is a parameter.
 */
module Insertion {
  import opened Wrappers
  import Seqs

  /** An option value insert passes through without looking at it (a string, a number, a
      nested array). */
  type RawValue(==)

  /** The value of one option: a flag, or any other value. */
  datatype OptionValue = Flag(on: bool) | Other(value: RawValue)

  /** Options handed to insertRows, by name. */
  type InsertOptions = map<string, OptionValue>

  /** The options used when the caller passes none. */
  const DefaultOptions: InsertOptions := map["ignoreUnknownValues" := Flag(true)]

  /** One entry of InsertResponse::failedRows(): the row and its list of errors. */
  datatype FailedRow<R, E> = FailedRow(row: R, errors: seq<E>)

  /** What insertRows answered: whether it succeeded, the failed rows, and its info. */
  datatype InsertResponse<R, E, I> = InsertResponse(successful: bool, failedRows: seq<FailedRow<R, E>>, info: I)

  /** What insert returns: `true`, a bare error list, or the verbose report
      `['affected_rows' => ..., 'errors' => ..., 'info' => ...]`. */
  datatype InsertOutcome<E, I> =
    | Inserted
    | Errors(errors: seq<E>)
    | Report(affectedRows: int, errors: seq<E>, info: I)

  /** The error lists of the failed rows, in order. */
  function ErrorLists<R, E>(failed: seq<FailedRow<R, E>>): (r: seq<seq<E>>)
    ensures |r| == |failed|
    ensures forall i :: 0 <= i < |failed| ==> r[i] == failed[i].errors
  {
    seq(|failed|, i requires 0 <= i < |failed| => failed[i].errors)
  }

  /** Every error of every failed row, row by row. */
  function AllErrors<R, E>(failed: seq<FailedRow<R, E>>): seq<E>
  {
    Seqs.Flatten(ErrorLists(failed))
  }

  /** The collected errors are exactly the failed rows' errors, and as many as they have
      together. */
  lemma AllErrorsFacts<R, E>(failed: seq<FailedRow<R, E>>, e: E)
    ensures e in AllErrors(failed) <==> exists i :: 0 <= i < |failed| && e in failed[i].errors
    ensures |AllErrors(failed)| == Seqs.TotalLength(ErrorLists(failed))
    ensures failed == [] ==> AllErrors(failed) == []
  {
    var lists := ErrorLists(failed);
    Seqs.FlattenMember(lists, e);
    Seqs.FlattenLength(lists);
    if exists i :: 0 <= i < |lists| && e in lists[i] {
      var i :| 0 <= i < |lists| && e in lists[i];
      assert e in failed[i].errors;
    }
  }

  /** The options actually sent: the caller's, or the default. */
  function EffectiveOptions(options: Option<InsertOptions>): (r: InsertOptions)
    ensures options.None? ==> r.Keys == {"ignoreUnknownValues"} && r["ignoreUnknownValues"] == Flag(true)
    ensures options.Some? ==> r == options.value
  {
    match options
    case None => DefaultOptions
    case Some(o) => o
  }

  /** The outcome of insert for a batch of `rowCount` rows. */
  function Outcome<R, E, I>(rowCount: nat, response: InsertResponse<R, E, I>, verbose: bool): InsertOutcome<E, I>
  {
    if response.successful && !verbose then Inserted
    else if verbose then Report(rowCount - |AllErrors(response.failedRows)|, AllErrors(response.failedRows), response.info)
    else Errors(AllErrors(response.failedRows))
  }

  /** One more error list appended. */
  lemma AllErrorsSnoc<R, E>(failed: seq<FailedRow<R, E>>, i: nat)
    requires i < |failed|
    ensures AllErrors(failed[..i + 1]) == AllErrors(failed[..i]) + failed[i].errors
  {
    var lists := ErrorLists(failed[..i + 1]);
    assert lists == ErrorLists(failed[..i]) + [failed[i].errors];
    Seqs.FlattenAppend(ErrorLists(failed[..i]), [failed[i].errors]);
    assert Seqs.Flatten([failed[i].errors]) == failed[i].errors + [];
  }

  /** Big::insert once insertRows has answered with `response`: `options` are the options
      that are sent, `outcome` what insert returns. */
  method Insert<R, E, I>(rows: seq<R>, options: Option<InsertOptions>, verbose: bool, response: InsertResponse<R, E, I>)
    returns (sent: InsertOptions, outcome: InsertOutcome<E, I>)
    ensures sent == EffectiveOptions(options)
    ensures outcome == Outcome(|rows|, response, verbose)
  {
    sent := if options.Some? then options.value else DefaultOptions;
    if response.successful && !verbose {
      return sent, Inserted;
    }
    var failed := response.failedRows;
    var errors: seq<E> := [];
    for i := 0 to |failed|
      invariant errors == AllErrors(failed[..i])
    {
      var rowErrors := failed[i].errors;
      for k := 0 to |rowErrors|
        invariant errors == AllErrors(failed[..i]) + rowErrors[..k]
      {
        assert rowErrors[..k + 1] == rowErrors[..k] + [rowErrors[k]];
        errors := errors + [rowErrors[k]];
      }
      assert rowErrors[..|rowErrors|] == rowErrors;
      AllErrorsSnoc(failed, i);
    }
    assert failed[..|failed|] == failed;
    if verbose {
      outcome := Report(|rows| - |errors|, errors, response.info);
    } else {
      outcome := Errors(errors);
    }
  }

  /** The three shapes of the answer: `true` exactly for a successful non-verbose call, a
      bare list of every row error for a failed non-verbose call, and in verbose mode the
      row count minus the error count, the same errors and the response info. */
  lemma OutcomeShape<R, E, I>(rowCount: nat, response: InsertResponse<R, E, I>, verbose: bool, e: E)
    ensures Outcome(rowCount, response, verbose).Inserted? <==> response.successful && !verbose
    ensures !verbose && !response.successful ==> Outcome(rowCount, response, verbose).Errors?
    ensures verbose ==> (Outcome(rowCount, response, verbose).Report?
      && Outcome(rowCount, response, verbose).info == response.info
      && Outcome(rowCount, response, verbose).affectedRows + |Outcome(rowCount, response, verbose).errors| == rowCount)
    ensures !Outcome(rowCount, response, verbose).Inserted? ==>
      (e in Outcome(rowCount, response, verbose).errors <==>
        exists i :: 0 <= i < |response.failedRows| && e in response.failedRows[i].errors)
  {
    AllErrorsFacts(response.failedRows, e);
  }

  /** The verbose `affected_rows` counts errors, not failed rows: one row carrying two
      errors is reported as -1 affected rows. */
  lemma AffectedRowsCountsErrors()
    ensures Outcome(1, InsertResponse(false, [FailedRow(0, ["invalid", "stopped"])], false), true).affectedRows == -1
  {
    var response := InsertResponse(false, [FailedRow(0, ["invalid", "stopped"])], false);
    assert ErrorLists(response.failedRows) == [["invalid", "stopped"]];
    assert AllErrors(response.failedRows) == ["invalid", "stopped"] + [];
  }
}
