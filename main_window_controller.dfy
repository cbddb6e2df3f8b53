/**
 * The main window controller's download queue: three lists of download rows
 * (downloading, queued, completed) that its methods update in place, by the
 * rules of module Queueing.
 *
 * The configuration is read afresh on every call, so it is a parameter of
 * each operation. Calls into the user interface, the start of a row's
 * download and a row's stop request are effects outside the model; each is recorded,
 * in order, in the ghost log `events`.
 */
module Controllers {
  import opened Lists
  import opened DownloadRows
  import opened Queueing

  /** The two settings the controller reads from the configuration. */
  datatype Configuration = Configuration(maxNumberOfActiveDownloads: nat, embedMetadata: bool)

  /** An effect the controller has on the outside world. */
  datatype Event =
    | Created(row: DownloadRow)                        // the UI creates a row for a new download
    | Moved(row: DownloadRow, stage: DownloadStage)    // the UI is told to show the row in a stage
    | Started(row: DownloadRow, embedMetadata: bool)   // the row's download is run
    | StopRequested(row: DownloadRow)                  // the row is asked to stop
    | RemovedFromQueue(row: DownloadRow)               // the UI is told to drop the row from the queue
    | RunInBackgroundChanged                           // listeners are told the settings were saved

  /** Which background-activity message is reported. */
  datatype Report =
    | BackgroundActivity(pending: nat)  // the count/progress/speed message, with the number of pending rows
    | FinishedWithErrors
    | NoDownloadsRunning

  /** The events of promoting one row: it is shown as downloading, then its download starts. */
  function PromotionEvents(row: DownloadRow, embedMetadata: bool): seq<Event>
  {
    [Moved(row, Downloading), Started(row, embedMetadata)]
  }

  /** The events of admitting `row` when `active` rows are downloading. */
  function AdmissionEvents(active: nat, row: DownloadRow, config: Configuration): seq<Event>
  {
    if active < config.maxNumberOfActiveDownloads then PromotionEvents(row, config.embedMetadata)
    else [Moved(row, InQueue)]
  }

  /** The events of promoting `rows`, in order. */
  function Promotions(rows: seq<DownloadRow>, embedMetadata: bool): seq<Event>
  {
    if rows == [] then []
    else Promotions(rows[..|rows| - 1], embedMetadata) + PromotionEvents(rows[|rows| - 1], embedMetadata)
  }

  /** Promoting one more row appends its events to those of the rows promoted before it. */
  lemma PromotionStep(log: seq<Event>, moved: seq<DownloadRow>, row: DownloadRow, embedMetadata: bool)
    ensures log + Promotions(moved + [row], embedMetadata)
            == (log + Promotions(moved, embedMetadata)) + PromotionEvents(row, embedMetadata)
  {
  }

  /** The events of asking each of `rows`, in order, to stop. */
  function StopSignals(rows: seq<DownloadRow>): seq<Event>
  {
    if rows == [] then [] else StopSignals(rows[..|rows| - 1]) + [StopRequested(rows[|rows| - 1])]
  }

  class MainWindowController {
    var downloadingRows: seq<DownloadRow>
    var queuedRows: seq<DownloadRow>
    var completedRows: seq<DownloadRow>
    ghost var events: seq<Event>

    constructor ()
      ensures downloadingRows == [] && queuedRows == [] && completedRows == []
      ensures events == []
    {
      downloadingRows, queuedRows, completedRows := [], [], [];
      events := [];
    }

    /** The three lists as one value. */
    function State(): RowLists
      reads this`downloadingRows, this`queuedRows, this`completedRows
    {
      RowLists(downloadingRows, queuedRows, completedRows)
    }

    /** The admission rule shared by a new and a retried row. */
    method Admit(row: DownloadRow, config: Configuration)
      modifies this`downloadingRows, this`queuedRows, this`events
      ensures State() == Queueing.Admit(old(State()), row, config.maxNumberOfActiveDownloads)
      ensures events == old(events) + AdmissionEvents(|old(downloadingRows)|, row, config)
    {
      if |downloadingRows| < config.maxNumberOfActiveDownloads {
        downloadingRows := downloadingRows + [row];
        events := events + PromotionEvents(row, config.embedMetadata);
      } else {
        queuedRows := queuedRows + [row];
        events := events + [Moved(row, InQueue)];
      }
    }

    /**
     * The UI creates a new row for a download, and the row is admitted: it
     * starts downloading when fewer rows than the limit are downloading, and
     * is queued otherwise. The row the UI creates is new and has not
     * finished with an error; since no list holds it, every row stays held
     * once.
     */
    method AddDownload(config: Configuration) returns (newRow: DownloadRow)
      modifies this`downloadingRows, this`queuedRows, this`events
      ensures fresh(newRow) && !newRow.finishedWithError
      ensures State() == Queueing.Admit(old(State()), newRow, config.maxNumberOfActiveDownloads)
      ensures events == old(events) + [Created(newRow)] + AdmissionEvents(|old(downloadingRows)|, newRow, config)
      ensures newRow !in Held(old(State()))
      ensures old(Distinct(State())) ==> Distinct(State())
    {
      ghost var before := State();
      newRow := new DownloadRow();
      events := events + [Created(newRow)];
      if Distinct(before) {
        AdmitKeepsDistinct(before, newRow, config.maxNumberOfActiveDownloads);
      }
      Admit(newRow, config);
    }

    /** Every downloading row, then every queued row, is asked to stop; no list changes. */
    method StopAllDownloads()
      modifies this`events
      ensures State() == old(State())
      ensures events == old(events) + StopSignals(downloadingRows) + StopSignals(queuedRows)
    {
      for i := 0 to |downloadingRows|
        invariant events == old(events) + StopSignals(downloadingRows[..i])
      {
        assert downloadingRows[..i + 1][..i] == downloadingRows[..i];
        events := events + [StopRequested(downloadingRows[i])];
      }
      assert downloadingRows[..|downloadingRows|] == downloadingRows;
      ghost var afterDownloading := events;
      for i := 0 to |queuedRows|
        invariant events == afterDownloading + StopSignals(queuedRows[..i])
      {
        assert queuedRows[..i + 1][..i] == queuedRows[..i];
        events := events + [StopRequested(queuedRows[i])];
      }
      assert queuedRows[..|queuedRows|] == queuedRows;
    }

    /**
     * After the configuration is saved, queued rows are promoted from the
     * head of the queue, in order, until the limit is reached or the queue
     * is empty.
     */
    method ConfigurationSaved(config: Configuration)
      modifies this`downloadingRows, this`queuedRows, this`events
      ensures State() == Drain(old(State()), config.maxNumberOfActiveDownloads)
      ensures events == old(events) + [RunInBackgroundChanged]
                        + Promotions(old(queuedRows)[..|downloadingRows| - |old(downloadingRows)|], config.embedMetadata)
    {
      ghost var before := State();
      events := events + [RunInBackgroundChanged];
      ghost var events0 := events;
      ghost var moved: seq<DownloadRow> := [];
      while |downloadingRows| < config.maxNumberOfActiveDownloads && |queuedRows| > 0
        invariant downloadingRows == before.downloading + moved
        invariant before.queued == moved + queuedRows
        invariant events == events0 + Promotions(moved, config.embedMetadata)
        invariant moved == [] || |downloadingRows| <= config.maxNumberOfActiveDownloads
        decreases |queuedRows|
      {
        var queuedRow := queuedRows[0];
        assert queuedRows == [queuedRow] + queuedRows[1..];
        downloadingRows, queuedRows := downloadingRows + [queuedRow], queuedRows[1..];
        events := events + PromotionEvents(queuedRow, config.embedMetadata);
        PromotionStep(events0, moved, queuedRow, config.embedMetadata);
        moved := moved + [queuedRow];
      }
      assert State() == before.(downloading := before.downloading + moved, queued := queuedRows);
      DrainReached(before, moved, queuedRows, config.maxNumberOfActiveDownloads);
      assert |downloadingRows| - |before.downloading| == |moved|;
      assert moved == before.queued[..|moved|];
    }

    /**
     * A row finished: it is appended to the completed list and its first
     * occurrence leaves the downloading list; then the head of the queue is
     * promoted if the downloading list is below the limit.
     */
    method DownloadCompleted(row: DownloadRow, config: Configuration)
      modifies this`downloadingRows, this`queuedRows, this`completedRows, this`events
      ensures State() == Complete(old(State()), row, config.maxNumberOfActiveDownloads)
      ensures events == old(events) + [Moved(row, Completed)]
                        + (if CanPromote(Finish(old(State()), row), config.maxNumberOfActiveDownloads)
                           then PromotionEvents(old(queuedRows)[0], config.embedMetadata)
                           else [])
    {
      ghost var finished := Finish(State(), row);
      downloadingRows, completedRows := RemoveFirst(downloadingRows, row), completedRows + [row];
      events := events + [Moved(row, Completed)];
      assert State() == finished;
      if |downloadingRows| < config.maxNumberOfActiveDownloads && |queuedRows| > 0 {
        var queuedRow := queuedRows[0];
        downloadingRows, queuedRows := downloadingRows + [queuedRow], queuedRows[1..];
        events := events + PromotionEvents(queuedRow, config.embedMetadata);
        assert State() == PromoteHead(finished);
      }
    }

    /**
     * A row stopped: if it is queued, its first occurrence leaves the queue
     * and the UI is told to drop it. Otherwise nothing changes; no row is
     * promoted either way.
     */
    method DownloadStopped(row: DownloadRow)
      modifies this`queuedRows, this`events
      ensures State() == Stop(old(State()), row)
      ensures events == old(events) + (if row in old(queuedRows) then [RemovedFromQueue(row)] else [])
    {
      if row in queuedRows {
        queuedRows := RemoveFirst(queuedRows, row);
        events := events + [RemovedFromQueue(row)];
      }
    }

    /**
     * A row is retried: it is admitted by the same rule as a new row. It is
     * not taken out of the completed list, so a row that completed before
     * is held twice afterwards.
     */
    method DownloadRetried(row: DownloadRow, config: Configuration)
      modifies this`downloadingRows, this`queuedRows, this`events
      ensures State() == Queueing.Admit(old(State()), row, config.maxNumberOfActiveDownloads)
      ensures events == old(events) + AdmissionEvents(|old(downloadingRows)|, row, config)
    {
      Admit(row, config);
    }

    /** Whether any row is downloading. */
    function AreDownloadsRunning(): (running: bool)
      reads this
      ensures running <==> downloadingRows != []
    {
      |downloadingRows| > 0
    }

    /** The number of completed rows that finished with an error. */
    method ErrorsCount() returns (count: nat)
      ensures count == CountErrors(completedRows)
      ensures count <= |completedRows|
    {
      count := 0;
      for i := 0 to |completedRows|
        invariant count == CountErrors(completedRows[..i])
      {
        assert completedRows[..i + 1] == completedRows[..i] + [completedRows[i]];
        CountErrorsSnoc(completedRows[..i], completedRows[i]);
        count := count + if completedRows[i].finishedWithError then 1 else 0;
      }
      assert completedRows[..|completedRows|] == completedRows;
    }

    /**
     * The background-activity message: the progress message while any row
     * is downloading or queued; otherwise "finished with errors" when a
     * completed row failed, and "no downloads running" when none did.
     */
    method GetBackgroundActivityReport() returns (report: Report)
      ensures report.BackgroundActivity? <==> |downloadingRows| + |queuedRows| > 0
      ensures report.BackgroundActivity? ==> report.pending == |downloadingRows| + |queuedRows|
      ensures report == FinishedWithErrors <==>
                |downloadingRows| + |queuedRows| == 0 && CountErrors(completedRows) > 0
      ensures report == NoDownloadsRunning <==>
                |downloadingRows| + |queuedRows| == 0 && CountErrors(completedRows) == 0
    {
      var pending := |downloadingRows| + |queuedRows|;
      if pending > 0 {
        report := BackgroundActivity(pending);
      } else {
        var errors := ErrorsCount();
        if errors > 0 {
          report := FinishedWithErrors;
        } else {
          report := NoDownloadsRunning;
        }
      }
    }
  }
}
