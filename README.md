# Download queue of the Tube Converter main window controller

This project models the download queue of `MainWindowController` in
NickvisionTubeConverter.Shared. The controller keeps three lists of download
rows:

- downloading rows;
- queued rows, waiting for a free download slot;
- completed rows.

It admits each new or retried row to the downloading list while fewer rows
than `MaxNumberOfActiveDownloads` are downloading, and to the end of the queue
otherwise. When a download completes, it promotes the head of the queue if the
downloading list, without the finished row, is below the limit. After
the configuration is saved, it drains the queue up to the limit. A queued row
that reports it stopped leaves the queue. Three queries are read from the lists:
whether any row is downloading, the number of completed rows that failed, and
the background-activity message.

The model has four modules:

- `Lists` holds the two `List<T>` operations the controller relies on: the
  first index of an element, and `Remove`, which cuts out the first
  occurrence only.
- `DownloadRows` holds the row, its stage, and the count of rows that
  finished with an error.
- `Queueing` holds the queueing rules on values. The three lists form one
  value `RowLists`, and each reaction is a function from the lists before to
  the lists after. Lemmas prove what the rules keep:
  - the bound on downloading rows;
  - the multiset of rows held, and that no row is held twice;
  - first-in first-out promotion;
  - the error count.
- `Controllers` holds the controller as a class. Its three `seq` fields are
  updated in place by methods whose `ensures` tie the new lists to the
  `Queueing` function of the old lists. A ghost event log records, in order,
  the row the user interface creates for a new download, each move of a row
  between stages shown in the user interface, each row's removal from the
  queue view, the start of each row's download, each stop request, and the
  notice that the settings were saved.

A fifth module, `Scenarios`, states the exact outcome of short call
sequences on a fresh controller.

The configuration is read afresh on every call in the source, so each
operation takes it as a parameter. The limit is a `nat`. A negative limit
would act as zero, because the guards only compare a count against it with
`<`.

Two behaviours of the code shape the model:

- A retried row is not taken out of the completed list
  (`MainWindowController.cs:288-301` adds it to the downloading list or the
  queue without removing it anywhere). So the three lists are not always
  disjoint: after a retry the row is held twice, and if it completes again
  the completed list holds it twice and its error is counted twice.
  `AdmitHeldRowBreaksDistinct` and `RetriedFailureCountedTwice` state this.
- Start-up does not drain the queue. `StartupAsync` (lines 170-188) only
  subscribes the configuration-saved handler, and the queue is empty at
  construction.

## Model

| member | source | states |
|---|---|---|
| `Lists.FirstIndex` | NickvisionTubeConverter.Shared/Controllers/MainWindowController.cs:259 | the index found holds the element, and no earlier index does |
| `Lists.RemoveFirst` | NickvisionTubeConverter.Shared/Controllers/MainWindowController.cs:259 | `List<T>.Remove`: an absent element leaves the list unchanged; otherwise the list is cut at the first index holding the element, everything before and after it kept in order, and exactly one copy of it leaves |
| `Lists.RemoveFirstLength` | NickvisionTubeConverter.Shared/Controllers/MainWindowController.cs:279 | removal shortens the list by one exactly when the element was there |
| `Lists.RemoveFirstCutsFirst` | NickvisionTubeConverter.Shared/Controllers/MainWindowController.cs:279 | for any list written as a part without the element, the element, and a rest, removal gives back the part followed by the rest |
| `Lists.RemoveFirstHead` | NickvisionTubeConverter.Shared/Controllers/MainWindowController.cs:259 | removing the element at the head of a list leaves the rest of the list |
| `DownloadRows.DownloadRow.constructor` | NickvisionTubeConverter.Shared/Controllers/MainWindowController.cs:202 | a new row has not finished with an error |
| `DownloadRows.CountErrors` | NickvisionTubeConverter.Shared/Controllers/MainWindowController.cs:98-109 | the error count never exceeds the number of rows, and is zero exactly when no row finished with an error |
| `DownloadRows.CountErrorsAppend` | NickvisionTubeConverter.Shared/Controllers/MainWindowController.cs:103-106 | the count over two lists joined is the sum of their counts |
| `DownloadRows.CountErrorsSnoc` | NickvisionTubeConverter.Shared/Controllers/MainWindowController.cs:105 | appending one row adds its error flag to the count |
| `DownloadRows.CountErrorsGrowsWithAppend` | NickvisionTubeConverter.Shared/Controllers/MainWindowController.cs:258 | a list that grows only at its end never loses errors, and gains at most one per row added |
| `Queueing.DrainCount` | NickvisionTubeConverter.Shared/Controllers/MainWindowController.cs:242 | the number of rows the saved-configuration loop promotes: no more than are queued, never past the limit, and enough to fill the limit or empty the queue |
| `Queueing.DrainCountDetermined` | NickvisionTubeConverter.Shared/Controllers/MainWindowController.cs:242 | those three properties determine the count uniquely |
| `Queueing.Admit` | NickvisionTubeConverter.Shared/Controllers/MainWindowController.cs:206-216 | admission (also 290-300): the completed list and every row already listed stay in place, exactly one row is added, it goes to the downloading list exactly when fewer rows than the limit are downloading, and the bound on downloading rows is kept |
| `Queueing.Drain` | NickvisionTubeConverter.Shared/Controllers/MainWindowController.cs:242-249 | draining keeps the rows and their order (downloading then queued), stops only at the limit or an empty queue, keeps the bound, demotes no downloading row and leaves the completed list alone |
| `Queueing.Finish` | NickvisionTubeConverter.Shared/Controllers/MainWindowController.cs:258-259 | a finished row joins the end of the completed list, its first occurrence is cut out of the downloading list with the other rows kept in order (so the list loses one row exactly when it held the finished one), and the queue is untouched |
| `Queueing.PromoteHead` | NickvisionTubeConverter.Shared/Controllers/MainWindowController.cs:263-265 | one row crosses from the queue to the downloading list, the order of all rows is kept, and the completed list is untouched |
| `Queueing.Complete` | NickvisionTubeConverter.Shared/Controllers/MainWindowController.cs:258-265 | the row joins the completed list, the pending rows drop by one exactly when the row was downloading, and the bound on downloading rows is kept |
| `Queueing.Stop` | NickvisionTubeConverter.Shared/Controllers/MainWindowController.cs:277-281 | a stop leaves the downloading and completed lists alone and removes the first occurrence of the row from the queue, which is a no-op when it is not queued |
| `Queueing.AdmitAddsRow` | NickvisionTubeConverter.Shared/Controllers/MainWindowController.cs:206-216 | admission adds exactly the admitted row to the rows held |
| `Queueing.AdmitKeepsDistinct` | NickvisionTubeConverter.Shared/Controllers/MainWindowController.cs:200-216 | admitting a row that no list holds keeps every row held once |
| `Queueing.AdmitHeldRowBreaksDistinct` | NickvisionTubeConverter.Shared/Controllers/MainWindowController.cs:288-301 | admitting a row that a list already holds (a retried completed row) leaves it held twice |
| `Queueing.DrainReached` | NickvisionTubeConverter.Shared/Controllers/MainWindowController.cs:242-249 | draining moves exactly the prefix of the queue that stays within the limit and fills it or empties the queue |
| `Queueing.DrainKeepsHeld` | NickvisionTubeConverter.Shared/Controllers/MainWindowController.cs:244-246 | draining keeps the rows held, hence keeps every row held once |
| `Queueing.CompletePromotesAtMostHead` | NickvisionTubeConverter.Shared/Controllers/MainWindowController.cs:258-265 | a completion appends the row to the completed list and promotes the old head of the queue, and nothing else, exactly when the downloading list without the row is below the limit |
| `Queueing.CompleteOldestPromotesHead` | NickvisionTubeConverter.Shared/Controllers/MainWindowController.cs:258-265 | when the oldest downloading row completes with room left, the head of the queue takes the last downloading slot and the rest of the queue waits |
| `Queueing.FinishKeepsHeld` | NickvisionTubeConverter.Shared/Controllers/MainWindowController.cs:258-259 | moving a downloading row to the completed list keeps the rows held |
| `Queueing.PromoteHeadKeepsHeld` | NickvisionTubeConverter.Shared/Controllers/MainWindowController.cs:263-265 | promoting the head of the queue keeps the rows held |
| `Queueing.CompleteKeepsHeld` | NickvisionTubeConverter.Shared/Controllers/MainWindowController.cs:256-269 | completing a downloading row keeps the rows held and keeps every row held once |
| `Queueing.CompleteCountsError` | NickvisionTubeConverter.Shared/Controllers/MainWindowController.cs:258 | each completion adds the row's error flag to the error count |
| `Queueing.StopDropsRow` | NickvisionTubeConverter.Shared/Controllers/MainWindowController.cs:277-279 | a stop takes exactly one copy of a queued row out of the rows held, and none of a row that is not queued |
| `Queueing.StopKeepsDistinct` | NickvisionTubeConverter.Shared/Controllers/MainWindowController.cs:277-279 | a stop keeps every row held once |
| `Controllers.MainWindowController.constructor` | NickvisionTubeConverter.Shared/Controllers/MainWindowController.cs:73-81 | a new controller holds no rows |
| `Controllers.MainWindowController.Admit` | NickvisionTubeConverter.Shared/Controllers/MainWindowController.cs:206-216 | the lists after admission are the admission rule applied to the lists before; the row is shown downloading and started, or shown queued |
| `Controllers.MainWindowController.AddDownload` | NickvisionTubeConverter.Shared/Controllers/MainWindowController.cs:200-217 | the UI creates a new, error-free row (logged first), which is admitted by the admission rule; no list held it, and a controller that held every row once still does |
| `Controllers.MainWindowController.StopAllDownloads` | NickvisionTubeConverter.Shared/Controllers/MainWindowController.cs:222-232 | every downloading row, then every queued row, is asked to stop, in list order; no list changes |
| `Controllers.MainWindowController.ConfigurationSaved` | NickvisionTubeConverter.Shared/Controllers/MainWindowController.cs:239-250 | listeners are told first; then the lists are the drained lists, and exactly the promoted rows, in queue order, are shown downloading and started |
| `Controllers.MainWindowController.DownloadCompleted` | NickvisionTubeConverter.Shared/Controllers/MainWindowController.cs:256-269 | the lists after are the completion rule applied to the lists before; the row is shown completed, then, exactly when the downloading list without the finished row is below the limit and a row is queued, the head of the queue is shown downloading and started |
| `Controllers.MainWindowController.DownloadStopped` | NickvisionTubeConverter.Shared/Controllers/MainWindowController.cs:275-282 | the lists after are the stop rule applied to the lists before; the UI drops the row from the queue exactly when it was queued |
| `Controllers.MainWindowController.DownloadRetried` | NickvisionTubeConverter.Shared/Controllers/MainWindowController.cs:288-301 | a retried row is admitted by the same rule as a new row, with the same effects |
| `Controllers.MainWindowController.AreDownloadsRunning` | NickvisionTubeConverter.Shared/Controllers/MainWindowController.cs:55 | downloads are running exactly when the downloading list is not empty |
| `Controllers.MainWindowController.ErrorsCount` | NickvisionTubeConverter.Shared/Controllers/MainWindowController.cs:98-109 | the loop returns the number of completed rows that finished with an error, never more than there are completed rows |
| `Controllers.MainWindowController.GetBackgroundActivityReport` | NickvisionTubeConverter.Shared/Controllers/MainWindowController.cs:306-334 | the progress message with the pending count exactly when a row is downloading or queued; otherwise "finished with errors" exactly when a completed row failed, and "no downloads running" exactly when none did |
| `Scenarios.CompleteFirstOfTwo` | NickvisionTubeConverter.Shared/Controllers/MainWindowController.cs:258-265 | with two rows downloading and one queued at limit two, completing the first moves the queued row to the end of the downloading list |
| `Scenarios.QueueFillsAndDrains` | NickvisionTubeConverter.Shared/Controllers/MainWindowController.cs:200-269 | three rows added at limit two leave the first two downloading and the third queued; when the first completes, the queued row takes its slot |
| `Scenarios.RaisedLimitStartsWaitingRow` | NickvisionTubeConverter.Shared/Controllers/MainWindowController.cs:239-250 | a row added at limit zero waits; saving limit one starts it |
| `Scenarios.StopAllThenQueuedRowStops` | NickvisionTubeConverter.Shared/Controllers/MainWindowController.cs:222-282 | stopping everything moves no row; the queued row leaves the queue once it reports that it stopped, and the downloading row stays |
| `Scenarios.RetriedFailureCountedTwice` | NickvisionTubeConverter.Shared/Controllers/MainWindowController.cs:288-333 | a row that fails, is retried and fails again is held twice by the completed list, counted as two errors, and reported as finished with errors |

## Left out

- Start-up and disposal (`StartupAsync`, `Dispose`): they touch the temporary directory, the Python engine and dependency setup, not the queue. Only the subscription to configuration saves matters here, and every method can be called directly.
- `ShowSun`, `Greeting`, `AppInfo`, `IsDevVersion`, `Theme`, `RunInBackground`, `CreateAddDownloadDialogController` and `CreatePreferencesViewController`: they read the clock or the configuration, or pass values through, and never touch the lists.
- The background-activity message's text: the total progress and total speed are floating point, and the string is formatted through the localizer. `GetBackgroundActivityReport` returns only which of the three messages is chosen, plus the pending count.
- The `Download` model the row is built from, and the row's own download run (`RunAsync`): the row is an opaque handle whose only field is its error flag. A run is an event in the ghost log, and its outcome arrives as a later call to `DownloadCompleted` or `DownloadStopped`.
- Fire-and-forget versus awaited runs, and any interleaving of the asynchronous reactions: each reaction is modelled as one atomic step. A row's `Stop` that calls back into `DownloadStopped` while `StopAllDownloads` is still iterating is not modelled.
- Registering the completion, stop and retry callbacks on a new row (`MainWindowController.cs:203-205`): the model calls the reactions directly.
- User-interface delegates and the `RunInBackgroundChanged` event: they appear only as entries of the ghost event log.
- The row factory `UICreateDownloadRow` (`MainWindowController.cs:202`) is not part of this model. `AddDownload` assumes it returns a new row that has not finished with an error, modelled by allocating one. This is what makes the new row held by no list. A factory that handed back a row already listed would break that.
- `Controllers.MainWindowController.ErrorsCount`: returns an unbounded `nat` where the source returns a 32-bit `uint`. The count never exceeds the number of completed rows, so no wrap-around can occur for any list the runtime can hold.
