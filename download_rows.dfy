/**
 * The download row: the handle the main window controller sequences through
 * its queue. The controller never looks inside a row's download; of the
 * row's observable state it reads only whether it finished with an error.
 */
module DownloadRows {

  /** The stage a row is shown in (`DownloadStage`). */
  datatype DownloadStage = InQueue | Downloading | Completed

  /**
   * A download row control. `finishedWithError` is set by the row's own
   * download run, which is not part of this model; rows are compared by
   * reference, as the controller's lists compare them.
   */
  class DownloadRow {
    var finishedWithError: bool

    constructor ()
      ensures !finishedWithError
    {
      finishedWithError := false;
    }
  }

  /** One for a row that finished with an error, zero otherwise. */
  function ErrorFlag(row: DownloadRow): nat
    reads row
  {
    if row.finishedWithError then 1 else 0
  }

  /** The number of rows in `rows` that finished with an error; never more than there are rows. */
  function CountErrors(rows: seq<DownloadRow>): (n: nat)
    reads rows
    ensures n <= |rows|
    ensures n == 0 <==> forall i :: 0 <= i < |rows| ==> !rows[i].finishedWithError
  {
    if rows == [] then 0 else ErrorFlag(rows[0]) + CountErrors(rows[1..])
  }

  /** Counting errors distributes over concatenation. */
  lemma {:induction false} CountErrorsAppend(s: seq<DownloadRow>, t: seq<DownloadRow>)
    ensures CountErrors(s + t) == CountErrors(s) + CountErrors(t)
  {
    if s == [] {
      assert s + t == t;
    } else {
      assert (s + t)[1..] == s[1..] + t;
      CountErrorsAppend(s[1..], t);
    }
  }

  /** Appending one row adds its error flag to the count. */
  lemma CountErrorsSnoc(s: seq<DownloadRow>, row: DownloadRow)
    ensures CountErrors(s + [row]) == CountErrors(s) + ErrorFlag(row)
  {
    CountErrorsAppend(s, [row]);
    assert [row][1..] == [];
  }

  /**
   * Appending rows never lowers the error count: a list that only grows at
   * its end has a non-decreasing error count.
   */
  lemma CountErrorsGrowsWithAppend(s: seq<DownloadRow>, t: seq<DownloadRow>)
    ensures CountErrors(s) <= CountErrors(s + t)
    ensures CountErrors(s + t) <= CountErrors(s) + |t|
  {
    CountErrorsAppend(s, t);
  }
}
