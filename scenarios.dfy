/**
 * Whole runs of the controller, from a fresh controller, that show how its
 * rules combine: the queue filling up and draining as rows complete, a
 * saved configuration raising the limit, stopping everything, and a
 * retried row that completes twice.
 */
module Scenarios {
  import opened Lists
  import opened DownloadRows
  import opened Queueing
  import opened Controllers

  /** Three rows added with room for two downloads: the first two download, the third waits. */
  method AddThree(controller: MainWindowController, config: Configuration)
    returns (first: DownloadRow, second: DownloadRow, third: DownloadRow)
    requires controller.State() == RowLists([], [], []) && config.maxNumberOfActiveDownloads == 2
    modifies controller
    ensures controller.State() == RowLists([first, second], [third], [])
  {
    first := controller.AddDownload(config);
    second := controller.AddDownload(config);
    third := controller.AddDownload(config);
  }

  /** The first of two downloading rows completes: the waiting row takes its place. */
  lemma CompleteFirstOfTwo(first: DownloadRow, second: DownloadRow, third: DownloadRow)
    ensures Complete(RowLists([first, second], [third], []), first, 2) == RowLists([second, third], [], [first])
  {
    CompleteOldestPromotesHead(first, [second], third, [], [], 2);
    assert [first] + [second] == [first, second];
    assert [third] + [] == [third];
    assert [second] + [third] == [second, third];
    assert [] + [first] == [first];
  }

  /**
   * With room for two downloads, three rows are added: the third waits.
   * When the first completes, the waiting row takes its place.
   */
  method QueueFillsAndDrains()
    returns (first: DownloadRow, second: DownloadRow, third: DownloadRow, filled: RowLists, after: RowLists)
    ensures filled == RowLists([first, second], [third], [])
    ensures after == RowLists([second, third], [], [first])
  {
    var config := Configuration(2, false);
    var controller := new MainWindowController();
    first, second, third := AddThree(controller, config);
    filled := controller.State();
    CompleteFirstOfTwo(first, second, third);
    controller.DownloadCompleted(first, config);
    after := controller.State();
  }

  /**
   * With no room for downloads, an added row waits; saving a configuration
   * that allows one download starts it.
   */
  method RaisedLimitStartsWaitingRow() returns (row: DownloadRow, waiting: RowLists, after: RowLists)
    ensures waiting == RowLists([], [row], [])
    ensures after == RowLists([row], [], [])
  {
    var controller := new MainWindowController();
    row := controller.AddDownload(Configuration(0, false));
    waiting := controller.State();
    controller.ConfigurationSaved(Configuration(1, true));
    after := controller.State();
  }

  /**
   * Stopping everything asks the downloading row and then the queued row to
   * stop but moves neither; once the queued row reports that it stopped it
   * leaves the queue, and the downloading row stays until it completes.
   */
  method StopAllThenQueuedRowStops() returns (running: DownloadRow, waiting: DownloadRow, after: RowLists)
    ensures running != waiting
    ensures after == RowLists([running], [], [])
  {
    var config := Configuration(1, false);
    var controller := new MainWindowController();
    running := controller.AddDownload(config);
    waiting := controller.AddDownload(config);
    controller.StopAllDownloads();
    assert controller.State() == RowLists([running], [waiting], []);
    controller.DownloadStopped(waiting);
    assert RemoveFirst([waiting], waiting) == [];
    after := controller.State();
  }

  /**
   * A row that fails, is retried and fails again is held twice by the
   * completed list, and its error is counted twice.
   */
  method RetriedFailureCountedTwice() returns (row: DownloadRow, after: RowLists, errors: nat, report: Report)
    ensures after == RowLists([], [], [row, row])
    ensures errors == 2
    ensures report == FinishedWithErrors
  {
    var config := Configuration(1, false);
    var controller := new MainWindowController();
    row := controller.AddDownload(config);
    row.finishedWithError := true;
    assert controller.State() == RowLists([row], [], []);
    assert FirstIndex([row], row) == 0;
    controller.DownloadCompleted(row, config);
    assert controller.State() == RowLists([], [], [row]);
    controller.DownloadRetried(row, config);
    assert controller.State() == RowLists([row], [], [row]);
    controller.DownloadCompleted(row, config);
    after := controller.State();
    assert after == RowLists([], [], [row, row]);
    assert CountErrors(after.completed) == 2 by {
      CountErrorsSnoc([row], row);
    }
    errors := controller.ErrorsCount();
    report := controller.GetBackgroundActivityReport();
  }
}
