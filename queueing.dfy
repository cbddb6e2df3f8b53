/**
 * The queueing rules of the main window controller, on values: the three
 * row lists as one value, each reaction of the controller as a function
 * from the lists before to the lists after, and the properties the rules
 * keep (the bound on downloading rows, the rows held, first-in first-out
 * promotion).
 */
module Queueing {
  import opened Lists
  import opened DownloadRows

  /** The controller's three lists, in the order the rows entered them. */
  datatype RowLists = RowLists(downloading: seq<DownloadRow>, queued: seq<DownloadRow>, completed: seq<DownloadRow>)

  /** No more rows are downloading than the limit allows. */
  predicate WithinLimit(s: RowLists, limit: nat)
  {
    |s.downloading| <= limit
  }

  /**
   * Admission of a new or retried row: below the limit it joins the end of
   * the downloading list, otherwise the end of the queue. No row already
   * listed moves, the row downloads exactly when there is room, and the
   * bound on downloading rows is kept.
   */
  function Admit(s: RowLists, row: DownloadRow, limit: nat): (r: RowLists)
    ensures r.completed == s.completed
    ensures |r.downloading| >= |s.downloading| && |r.queued| >= |s.queued|
    ensures r.downloading[..|s.downloading|] == s.downloading && r.queued[..|s.queued|] == s.queued
    ensures |r.downloading| + |r.queued| == |s.downloading| + |s.queued| + 1
    ensures |r.downloading| > |s.downloading| <==> |s.downloading| < limit
    ensures WithinLimit(s, limit) ==> WithinLimit(r, limit)
  {
    if |s.downloading| < limit then s.(downloading := s.downloading + [row])
    else s.(queued := s.queued + [row])
  }

  /**
   * How many queued rows a saved configuration promotes when `active` rows
   * are downloading, `queued` rows wait and the limit is `limit`: never more
   * than are queued, never beyond the limit, and enough to fill the limit or
   * empty the queue.
   */
  function DrainCount(active: nat, queued: nat, limit: nat): (k: nat)
    ensures k <= queued
    ensures k == 0 || active + k <= limit
    ensures k == queued || active + k >= limit
    decreases queued
  {
    if active < limit && queued > 0 then 1 + DrainCount(active + 1, queued - 1, limit) else 0
  }

  /**
   * The three properties of `DrainCount` pin it down: any count that stays
   * within the queue and the limit and fills one of them is the drain count.
   */
  lemma DrainCountDetermined(active: nat, queued: nat, limit: nat, k: nat)
    requires k <= queued
    requires k == 0 || active + k <= limit
    requires k == queued || active + k >= limit
    ensures k == DrainCount(active, queued, limit)
  {
  }

  /**
   * A saved configuration moves the first `DrainCount` queued rows, in
   * order, to the end of the downloading list. Draining keeps the rows and
   * their order (downloading then queued), stops only when the limit is
   * reached or the queue is empty, never takes the downloading list past
   * the limit, demotes no downloading row, and leaves the completed list
   * alone.
   */
  function Drain(s: RowLists, limit: nat): (r: RowLists)
    ensures r.downloading + r.queued == s.downloading + s.queued
    ensures |r.downloading| >= limit || r.queued == []
    ensures WithinLimit(s, limit) ==> WithinLimit(r, limit)
    ensures |r.downloading| >= |s.downloading| && r.downloading[..|s.downloading|] == s.downloading
    ensures r.completed == s.completed
  {
    var k := DrainCount(|s.downloading|, |s.queued|, limit);
    assert s.queued == s.queued[..k] + s.queued[k..];
    s.(downloading := s.downloading + s.queued[..k], queued := s.queued[k..])
  }

  /**
   * A completed row goes to the end of the completed list and its first
   * occurrence leaves the downloading list; the queue is untouched.
   */
  function Finish(s: RowLists, row: DownloadRow): (r: RowLists)
    ensures r.downloading == RemoveFirst(s.downloading, row)
    ensures r.queued == s.queued
    ensures r.completed == s.completed + [row]
    ensures |r.downloading| == if row in s.downloading then |s.downloading| - 1 else |s.downloading|
  {
    RemoveFirstLength(s.downloading, row);
    s.(downloading := RemoveFirst(s.downloading, row), completed := s.completed + [row])
  }

  /** Whether the head of the queue is promoted: there is one, and room below the limit. */
  predicate CanPromote(s: RowLists, limit: nat)
  {
    |s.downloading| < limit && s.queued != []
  }

  /**
   * The head of the queue leaves the queue and joins the end of the
   * downloading list: one row crosses from the queue to the downloading
   * list, and the order of the rows is kept.
   */
  function PromoteHead(s: RowLists): (r: RowLists)
    requires s.queued != []
    ensures r.downloading + r.queued == s.downloading + s.queued
    ensures |r.downloading| == |s.downloading| + 1
    ensures r.completed == s.completed
  {
    assert s.queued == [s.queued[0]] + s.queued[1..];
    s.(downloading := s.downloading + [s.queued[0]], queued := s.queued[1..])
  }

  /**
   * Completion: the row is finished, then the head of the queue is promoted
   * if there is room. The row joins the completed list, one fewer row is
   * pending when it was downloading, and the bound is kept.
   */
  function Complete(s: RowLists, row: DownloadRow, limit: nat): (r: RowLists)
    ensures r.completed == s.completed + [row]
    ensures |r.downloading| + |r.queued| == |s.downloading| + |s.queued| - (if row in s.downloading then 1 else 0)
    ensures WithinLimit(s, limit) ==> WithinLimit(r, limit)
  {
    var t := Finish(s, row);
    if CanPromote(t, limit) then PromoteHead(t) else t
  }

  /**
   * A stopped row leaves the queue (its first occurrence); nothing happens
   * if it is not queued. The downloading and completed lists never change.
   */
  function Stop(s: RowLists, row: DownloadRow): (r: RowLists)
    ensures r.downloading == s.downloading && r.completed == s.completed
    ensures r.queued == RemoveFirst(s.queued, row)
  {
    if row in s.queued then s.(queued := RemoveFirst(s.queued, row)) else s
  }

  // ---------------------------------------------------------------------
  // The rows held, and the invariant that none is held twice

  /** Every row held by the three lists, with as many copies as the lists hold. */
  ghost function Held(s: RowLists): multiset<DownloadRow>
  {
    multiset(s.downloading + s.queued + s.completed)
  }

  /** No row is held twice: the three lists are pairwise disjoint and none repeats a row. */
  ghost predicate Distinct(s: RowLists)
  {
    forall r | r in Held(s) :: Held(s)[r] == 1
  }

  // ---------------------------------------------------------------------
  // Admission

  /** Admission adds exactly the admitted row to the rows held. */
  lemma AdmitAddsRow(s: RowLists, row: DownloadRow, limit: nat)
    ensures Held(Admit(s, row, limit)) == Held(s) + multiset{row}
  {
  }

  /** Admitting a row that is not held yet keeps every row held once. */
  lemma AdmitKeepsDistinct(s: RowLists, row: DownloadRow, limit: nat)
    requires Distinct(s) && row !in Held(s)
    ensures Distinct(Admit(s, row, limit))
  {
    var t := Admit(s, row, limit);
    AdmitAddsRow(s, row, limit);
    forall r | r in Held(t) ensures Held(t)[r] == 1 {
      if r != row {
        assert r in Held(s);
      }
    }
  }

  /** A row already held is held twice once it is admitted again. */
  lemma AdmitHeldRowBreaksDistinct(s: RowLists, row: DownloadRow, limit: nat)
    requires row in Held(s)
    ensures !Distinct(Admit(s, row, limit))
  {
    AdmitAddsRow(s, row, limit);
    assert Held(Admit(s, row, limit))[row] >= 2;
  }

  // ---------------------------------------------------------------------
  // Queue draining after a saved configuration

  /**
   * Draining is characterised by where it stops: moving a prefix of the
   * queue that stays within the limit, and that fills it or empties the
   * queue, is exactly what `Drain` does.
   */
  lemma DrainReached(s: RowLists, moved: seq<DownloadRow>, rest: seq<DownloadRow>, limit: nat)
    requires s.queued == moved + rest
    requires moved == [] || |s.downloading| + |moved| <= limit
    requires rest == [] || |s.downloading| + |moved| >= limit
    ensures Drain(s, limit) == s.(downloading := s.downloading + moved, queued := rest)
  {
  }

  /** Draining keeps the rows held, hence keeps every row held once. */
  lemma DrainKeepsHeld(s: RowLists, limit: nat)
    ensures Held(Drain(s, limit)) == Held(s)
    ensures Distinct(s) ==> Distinct(Drain(s, limit))
  {
  }

  // ---------------------------------------------------------------------
  // Completion

  /**
   * A completion promotes at most one row, the old head of the queue, and
   * only when the downloading list without the finished row is below the
   * limit.
   */
  lemma CompletePromotesAtMostHead(s: RowLists, row: DownloadRow, limit: nat)
    ensures var t := Complete(s, row, limit);
      var rest := RemoveFirst(s.downloading, row);
      t.completed == s.completed + [row] &&
      if |rest| < limit && s.queued != [] then
        t.downloading == rest + [s.queued[0]] && t.queued == s.queued[1..]
      else
        t.downloading == rest && t.queued == s.queued
  {
  }

  /**
   * When the oldest downloading row completes and the rest are below the
   * limit, the head of the queue takes the last downloading slot.
   */
  lemma CompleteOldestPromotesHead(row: DownloadRow, rest: seq<DownloadRow>, head: DownloadRow,
                                   queue: seq<DownloadRow>, done: seq<DownloadRow>, limit: nat)
    requires |rest| < limit
    ensures Complete(RowLists([row] + rest, [head] + queue, done), row, limit)
            == RowLists(rest + [head], queue, done + [row])
  {
  }

  /** Finishing a downloading row moves it to the completed list: the rows held stay the same. */
  lemma FinishKeepsHeld(s: RowLists, row: DownloadRow)
    requires row in s.downloading
    ensures Held(Finish(s, row)) == Held(s)
  {
  }

  /** Promoting the head of the queue keeps the rows held. */
  lemma PromoteHeadKeepsHeld(s: RowLists)
    requires s.queued != []
    ensures Held(PromoteHead(s)) == Held(s)
  {
  }

  /** Completing a downloading row keeps the rows held, hence keeps every row held once. */
  lemma CompleteKeepsHeld(s: RowLists, row: DownloadRow, limit: nat)
    requires row in s.downloading
    ensures Held(Complete(s, row, limit)) == Held(s)
    ensures Distinct(s) ==> Distinct(Complete(s, row, limit))
  {
    var t := Finish(s, row);
    FinishKeepsHeld(s, row);
    if CanPromote(t, limit) {
      PromoteHeadKeepsHeld(t);
    }
  }

  /** Each completion adds the finished row's error flag to the error count of the completed list. */
  lemma CompleteCountsError(s: RowLists, row: DownloadRow, limit: nat)
    ensures CountErrors(Complete(s, row, limit).completed) == CountErrors(s.completed) + ErrorFlag(row)
  {
    CountErrorsSnoc(s.completed, row);
  }

  // ---------------------------------------------------------------------
  // Stop

  /** A stop takes one copy of a queued row out of the rows held, and none of a row not queued. */
  lemma StopDropsRow(s: RowLists, row: DownloadRow)
    ensures Held(Stop(s, row)) == if row in s.queued then Held(s) - multiset{row} else Held(s)
  {
  }

  /** A stop keeps every row held once. */
  lemma StopKeepsDistinct(s: RowLists, row: DownloadRow)
    requires Distinct(s)
    ensures Distinct(Stop(s, row))
  {
    var t := Stop(s, row);
    StopDropsRow(s, row);
    forall r | r in Held(t) ensures Held(t)[r] == 1 {
      assert r in Held(s);
    }
  }
}
