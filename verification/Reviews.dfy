/**
 Second-opinion reviews of one chat session: rows in memory, the saved rows, and the workers and watchers that
 race to settle them. Each method is one transaction or one step of a worker; any of them may come next.
 A row is edited, put back, saved, and published only when the save is acknowledged.
 */
module Reviews {
  import opened Wrappers

  type ReviewId = string

  datatype Status = Running | Completed | Failed | Cancelled | Unavailable | Interrupted

  datatype Row = Row(id: ReviewId, request: string, source: string, focus: Option<string>, status: Status,
                     created: nat, finished: Option<nat>, findings: Option<string>, error: Option<string>)

  datatype Save = Saved | Lost | Uncertain

  const MAX_RECORDS: nat := 20
  const PHYSICAL_SLOTS: nat := 2
  const UNSAVED: string := "Review result could not be saved"
  const CANCELLED: string := "Review cancelled by owner"
  const RESTARTED: string := "The daemon restarted before this review completed; request a new review explicitly"

  /** How far an admitted review has come. */
  datatype Stage = Spawned | Calling | Finishing(end: Ending)

  /** `cancelled` is the review's cancel signal, `generation` the conversation it was captured from. */
  datatype Worker = Worker(generation: nat, cancelled: bool, stage: Stage)

  // ---- Rows ----

  predicate RowOk(r: Row) { r.findings.Some? ==> r.status == Completed }

  ghost predicate DistinctRows(rows: seq<Row>) {
    forall i, k | 0 <= i < k < |rows| :: rows[i].id != rows[k].id && rows[i].request != rows[k].request
  }

  ghost predicate OneRunning(rows: seq<Row>) {
    forall i, k | 0 <= i < k < |rows| :: rows[i].status != Running || rows[k].status != Running
  }

  /** What holds of the rows in memory and of the saved rows. */
  ghost predicate RowsOk(rows: seq<Row>) {
    && |rows| <= MAX_RECORDS
    && (forall r | r in rows :: RowOk(r))
    && DistinctRows(rows)
    && OneRunning(rows)
  }

  /** The rows that show findings although no save of them was acknowledged. */
  function Unacknowledged(rows: seq<Row>, acked: set<ReviewId>): set<ReviewId> {
    set r | r in rows && r.findings.Some? && r.id !in acked :: r.id
  }

  /** No acknowledged review is still running. */
  ghost predicate Open(rows: seq<Row>, acked: set<ReviewId>) {
    forall r | r in rows && r.status == Running :: r.id !in acked
  }

  /** A running row has not been settled in this process. */
  ghost predicate Unsettled(rows: seq<Row>, settled: seq<ReviewId>) {
    forall r | r in rows && r.status == Running :: r.id !in settled
  }

  function Find(rows: seq<Row>, id: ReviewId): (k: Option<nat>)
    ensures k.Some? ==> k.value < |rows| && rows[k.value].id == id
    ensures k.None? ==> forall r | r in rows :: r.id != id
  {
    if rows == [] then None
    else if rows[0].id == id then Some(0)
    else
      assert rows == [rows[0]] + rows[1..];
      match Find(rows[1..], id)
      case None => None
      case Some(k) => Some(k + 1)
  }

  function FindRequest(rows: seq<Row>, request: string): (k: Option<nat>)
    ensures k.Some? ==> k.value < |rows| && rows[k.value].request == request
    ensures k.None? ==> forall r | r in rows :: r.request != request
  {
    if rows == [] then None
    else if rows[0].request == request then Some(0)
    else
      assert rows == [rows[0]] + rows[1..];
      match FindRequest(rows[1..], request)
      case None => None
      case Some(k) => Some(k + 1)
  }

  predicate AnyRunning(rows: seq<Row>) { exists r :: r in rows && r.status == Running }

  /** A row that ends, or stays as it is. */
  predicate Settles(r: Row, r': Row) {
    && r'.id == r.id && r'.request == r.request && RowOk(r')
    && (r'.status == Running ==> r' == r)
  }

  lemma Replaced(rows: seq<Row>, k: nat, r': Row)
    requires RowsOk(rows) && k < |rows| && Settles(rows[k], r')
    ensures RowsOk(rows[k := r'])
  {
    var rows' := rows[k := r'];
    forall r | r in rows' ensures RowOk(r) { }
  }

  lemma ReplacedUnsettled(rows: seq<Row>, k: nat, r': Row, settled: seq<ReviewId>)
    requires RowsOk(rows) && Unsettled(rows, settled) && k < |rows| && r'.status != Running
    ensures Unsettled(rows[k := r'], settled) && Unsettled(rows[k := r'], settled + [rows[k].id])
  {
    var rows' := rows[k := r'];
    forall r | r in rows' && r.status == Running
      ensures r.id !in settled + [rows[k].id]
    {
      var i :| 0 <= i < |rows'| && rows'[i] == r;
      assert i != k && rows[i] == r;
    }
  }

  /** The newest rows that leave room for one more. */
  function Newest(rows: seq<Row>): seq<Row> {
    if |rows| < MAX_RECORDS then rows else rows[|rows| - (MAX_RECORDS - 1)..]
  }

  /** The oldest rows go until there is room for one more. */
  method Evict(rows: seq<Row>) returns (kept: seq<Row>)
    ensures kept == Newest(rows) && |kept| == (if |rows| < 20 then |rows| else 19) && kept == rows[|rows| - |kept|..]
  {
    kept := rows;
    while |kept| >= MAX_RECORDS
      invariant |kept| <= |rows| && kept == rows[|rows| - |kept|..]
      invariant |rows| >= MAX_RECORDS ==> |kept| >= MAX_RECORDS - 1
      invariant |rows| < MAX_RECORDS ==> kept == rows
    {
      kept := kept[1..];
    }
  }

  lemma Appended(rows: seq<Row>, r: Row)
    requires RowsOk(rows) && RowOk(r) && !AnyRunning(rows)
    requires forall q | q in rows :: q.id != r.id && q.request != r.request
    ensures RowsOk(Newest(rows) + [r])
  {
    NewestAreRows(rows);
    var rows', n := Newest(rows) + [r], |rows| - |Newest(rows)|;
    forall i | 0 <= i < |rows'| - 1
      ensures rows'[i] == rows[n + i] && rows'[i] in rows
    {
    }
    forall q | q in rows' ensures RowOk(q) { assert q in Newest(rows) || q == r; }
  }

  lemma NewestAreRows(rows: seq<Row>)
    ensures forall q | q in Newest(rows) :: q in rows
  {
  }

  // ---- Restart ----

  function Interrupt(r: Row, now: nat): Row {
    if r.status == Running then r.(status := Interrupted, finished := Some(now), findings := None, error := Some(RESTARTED)) else r
  }

  method InterruptOnRestore(rows: seq<Row>) returns (restored: seq<Row>)
    requires RowsOk(rows)
    ensures |restored| == |rows| && RowsOk(restored) && !AnyRunning(restored)
    ensures forall k | 0 <= k < |rows| ::
              (rows[k].status == Running ==>
                 restored[k].status == Interrupted && restored[k].findings.None? && restored[k].finished.Some? && restored[k].error == Some(RESTARTED))
              && (rows[k].status != Running ==> restored[k] == rows[k])
              && restored[k].id == rows[k].id && restored[k].findings == rows[k].findings
  {
    restored := rows;
    for i := 0 to |rows|
      invariant |restored| == |rows| && RowsOk(restored)
      invariant forall k | i <= k < |rows| :: restored[k] == rows[k]
      invariant forall k | 0 <= k < i ::
                  (rows[k].status == Running ==>
                     restored[k].status == Interrupted && restored[k].findings.None? && restored[k].finished.Some? && restored[k].error == Some(RESTARTED))
                  && (rows[k].status != Running ==> restored[k] == rows[k])
                  && restored[k].id == rows[k].id && restored[k].findings == rows[k].findings
    {
      var now: nat := *;
      assert rows[i] in rows;
      Replaced(restored, i, Interrupt(restored[i], now));
      restored := restored[i := Interrupt(restored[i], now)];
    }
  }

  // ---- The session ----

  ghost predicate Distinct(ids: seq<ReviewId>) {
    forall i, k | 0 <= i < k < |ids| :: ids[i] != ids[k]
  }

  ghost predicate IdsWithin(rows: seq<Row>, ids: set<ReviewId>) {
    forall r | r in rows :: r.id in ids
  }

  /** Every running row has a task that will settle it. */
  ghost predicate Attended(rows: seq<Row>, workers: map<ReviewId, Worker>) {
    forall r | r in rows && r.status == Running :: r.id in workers
  }

  /** How a review ends: with findings only when it is completed. */
  datatype Ending = Ending(status: Status, findings: Option<string>, error: Option<string>)

  predicate EndingOk(e: Ending) {
    (e.status == Completed || e.status == Failed || e.status == Cancelled) && (e.findings.Some? ==> e.status == Completed)
  }

  /** A task that called the model, or ends with what it found. */
  predicate MayFind(stage: Stage) { stage == Calling || (stage.Finishing? && stage.end.findings.Some?) }

  /** Findings come from a call to the model. */
  ghost predicate FromCalls(rows: seq<Row>, calls: seq<ReviewId>) {
    forall r | r in rows && r.findings.Some? :: r.id in calls
  }

  predicate StageOk(stage: Stage) { stage.Finishing? ==> EndingOk(stage.end) }

  /** A task has called the model once it may end with findings, and not before it was checked. */
  ghost predicate WorkerOk(id: ReviewId, w: Worker, calls: seq<ReviewId>, used: set<ReviewId>) {
    id in used && StageOk(w.stage) && (w.stage == Spawned ==> id !in calls) && (MayFind(w.stage) ==> id in calls)
  }

  /** Ids are used once: for one task, which calls the model at most once. */
  ghost predicate TasksOk(workers: map<ReviewId, Worker>, calls: seq<ReviewId>, settled: seq<ReviewId>, used: set<ReviewId>) {
    && |workers| <= PHYSICAL_SLOTS
    && (forall id | id in workers :: WorkerOk(id, workers[id], calls, used))
    && (forall id | id in calls :: id in used)
    && (forall id | id in settled :: id in used)
    && Distinct(calls) && Distinct(settled)
  }

  /** What holds in memory in every reachable state. */
  ghost predicate MemoryOk(rows: seq<Row>, used: set<ReviewId>, settled: seq<ReviewId>, workers: map<ReviewId, Worker>) {
    RowsOk(rows) && IdsWithin(rows, used) && Unsettled(rows, settled) && Attended(rows, workers)
  }

  /** What holds of the saved rows. */
  ghost predicate DiskOk(disk: seq<Row>, used: set<ReviewId>) {
    RowsOk(disk) && IdsWithin(disk, used)
  }

  lemma MemoryGrows(rows: seq<Row>, used: set<ReviewId>, settled: seq<ReviewId>, workers: map<ReviewId, Worker>,
                    used': set<ReviewId>, workers': map<ReviewId, Worker>)
    requires MemoryOk(rows, used, settled, workers)
    requires used <= used' && workers.Keys <= workers'.Keys
    ensures MemoryOk(rows, used', settled, workers')
  {
  }

  lemma DiskGrows(disk: seq<Row>, used: set<ReviewId>, used': set<ReviewId>)
    requires DiskOk(disk, used) && used <= used'
    ensures DiskOk(disk, used')
  {
  }

  lemma AppendedMemory(rows: seq<Row>, r: Row, used: set<ReviewId>, settled: seq<ReviewId>, workers: map<ReviewId, Worker>)
    requires MemoryOk(rows, used, settled, workers) && !AnyRunning(rows)
    requires r.findings.None? && r.id !in used && r.id !in settled && forall q | q in rows :: q.request != r.request
    requires r.status == Running ==> r.id in workers
    ensures MemoryOk(Newest(rows) + [r], used + {r.id}, settled, workers)
  {
    Appended(rows, r);
    NewestAreRows(rows);
    var rows' := Newest(rows) + [r];
    assert forall q | q in rows' :: q in rows || q == r;
  }

  lemma MemoryIsSavable(rows: seq<Row>, used: set<ReviewId>, settled: seq<ReviewId>, workers: map<ReviewId, Worker>)
    requires MemoryOk(rows, used, settled, workers)
    ensures DiskOk(rows, used)
  {
  }

  lemma OneMoreTask(workers: map<ReviewId, Worker>, calls: seq<ReviewId>, settled: seq<ReviewId>, used: set<ReviewId>, id: ReviewId, w: Worker)
    requires TasksOk(workers, calls, settled, used) && id !in used && |workers| < PHYSICAL_SLOTS && w.stage == Spawned
    ensures TasksOk(workers[id := w], calls, settled, used + {id})
  {
    assert forall k | k in workers :: WorkerOk(k, workers[k], calls, used);
    assert workers[id := w].Keys == workers.Keys + {id};
    assert |workers[id := w]| == |workers[id := w].Keys| && |workers| == |workers.Keys|;
  }

  lemma AdmittedMemory(rows: seq<Row>, row: Row, used: set<ReviewId>, settled: seq<ReviewId>,
                       workers: map<ReviewId, Worker>, calls: seq<ReviewId>, spawned: map<ReviewId, Worker>)
    requires MemoryOk(rows, used, settled, workers) && TasksOk(workers, calls, settled, used)
    requires row.id !in used && !AnyRunning(rows) && row.findings.None? && forall q | q in rows :: q.request != row.request
    requires if row.status != Running then spawned == workers
             else |workers| < PHYSICAL_SLOTS && row.id in spawned && spawned == workers[row.id := spawned[row.id]] && spawned[row.id].stage == Spawned
    ensures MemoryOk(Newest(rows) + [row], used + {row.id}, settled, spawned) && TasksOk(spawned, calls, settled, used + {row.id})
    ensures MemoryOk(rows, used + {row.id}, settled, workers) && TasksOk(workers, calls, settled, used + {row.id})
  {
    MemoryGrows(rows, used, settled, workers, used, spawned);
    AppendedMemory(rows, row, used, settled, spawned);
    if row.status == Running {
      OneMoreTask(workers, calls, settled, used, row.id, spawned[row.id]);
    }
  }

  function CancelRow(r: Row, now: nat): Row {
    if r.status == Running then r.(status := Cancelled, finished := Some(now), error := Some(CANCELLED)) else r
  }

  /** A row of a session ends; the rest of the session is as before. */
  lemma EndedMemory(rows: seq<Row>, k: nat, r': Row, used: set<ReviewId>,
                    settled: seq<ReviewId>, workers: map<ReviewId, Worker>)
    requires MemoryOk(rows, used, settled, workers) && k < |rows| && Settles(rows[k], r')
    ensures MemoryOk(rows[k := r'], used, settled, workers)
    ensures rows[k].status == Running && r'.status != Running ==> MemoryOk(rows[k := r'], used, settled + [rows[k].id], workers)
  {
    Replaced(rows, k, r');
    var rows' := rows[k := r'];
    assert rows[k] in rows;
    assert forall q | q in rows' :: q in rows || q == r';
    if r'.status != Running {
      ReplacedUnsettled(rows, k, r', settled);
    }
  }

  lemma CancelOk(rows: seq<Row>, k: nat, now: nat, used: set<ReviewId>, settled: seq<ReviewId>, workers: map<ReviewId, Worker>,
                 calls: seq<ReviewId>)
    requires MemoryOk(rows, used, settled, workers) && TasksOk(workers, calls, settled, used) && k < |rows|
    ensures var candidate, settled' := rows[k := CancelRow(rows[k], now)],
                                       if rows[k].status == Running then settled + [rows[k].id] else settled;
      MemoryOk(candidate, used, settled', workers) && DiskOk(candidate, used) && TasksOk(workers, calls, settled', used)
  {
    assert RowOk(rows[k]) by { assert rows[k] in rows; }
    EndedMemory(rows, k, CancelRow(rows[k], now), used, settled, workers);
    if rows[k].status == Running { SettledTasks(workers, calls, settled, used, rows, k); }
  }

  lemma SettledTasks(workers: map<ReviewId, Worker>, calls: seq<ReviewId>, settled: seq<ReviewId>, used: set<ReviewId>,
                     rows: seq<Row>, k: nat)
    requires TasksOk(workers, calls, settled, used) && k < |rows| && rows[k].status == Running
    requires Unsettled(rows, settled) && IdsWithin(rows, used)
    ensures TasksOk(workers, calls, settled + [rows[k].id], used)
  {
    assert rows[k] in rows;
  }

  lemma Resized(workers: map<ReviewId, Worker>, id: ReviewId, w: Worker)
    requires id in workers
    ensures workers[id := w].Keys == workers.Keys && |workers[id := w]| == |workers|
  {
    assert workers[id := w].Keys == workers.Keys;
    assert |workers[id := w]| == |workers[id := w].Keys| && |workers| == |workers.Keys|;
  }

  function EndRow(r: Row, e: Ending, now: nat): Row {
    r.(status := e.status, findings := e.findings, error := e.error, finished := Some(now))
  }

  function UnsavedRow(r: Row): Row { r.(status := Failed, findings := None, error := Some(UNSAVED)) }

  /** What a settled row shows: the ending given, or after a failed save a failure without findings. */
  ghost predicate EndedAs(r: Row, r': Row, e: Ending, now: nat, save: Save) {
    && r'.id == r.id && r'.request == r.request && r'.source == r.source && r'.focus == r.focus && r'.created == r.created
    && (save.Saved? ==> r'.status == e.status && r'.findings == e.findings && r'.error == e.error && r'.finished == Some(now))
    && (!save.Saved? ==> r'.status == Failed && r'.findings.None? && r'.error == Some(UNSAVED) && r'.finished == r.finished)
  }

  const TIMED_OUT: Ending := Ending(Failed, None, Some("Review timed out; provider usage may be incomplete"))

  predicate IsRunning(rows: seq<Row>, id: ReviewId) {
    var k := Find(rows, id);
    k.Some? && rows[k.value].status == Running
  }

  /** The rows in memory after a settlement: a row that is not running stays, a failed save shows a failed row. */
  function FinishedRows(rows: seq<Row>, id: ReviewId, e: Ending, now: nat, save: Save): seq<Row> {
    if !IsRunning(rows, id) then rows
    else
      var k := Find(rows, id).value;
      rows[k := if save.Saved? then EndRow(rows[k], e, now) else UnsavedRow(rows[k])]
  }

  lemma StaysSettled(before: seq<Row>, rows: seq<Row>, id: ReviewId)
    requires RowsOk(rows) && |rows| == |before|
    requires forall k | 0 <= k < |rows| :: rows[k].id == before[k].id
    requires Find(before, id).Some? ==> rows[Find(before, id).value].status != Running
    ensures forall r | r in rows && r.id == id :: r.status != Running
  {
  }

  /** Both ways a running row may settle, in memory and on disk. */
  lemma FinishOk(rows: seq<Row>, k: nat, e: Ending, now: nat, used: set<ReviewId>, settled: seq<ReviewId>, workers: map<ReviewId, Worker>)
    requires MemoryOk(rows, used, settled, workers) && EndingOk(e) && k < |rows| && rows[k].status == Running
    ensures MemoryOk(rows[k := EndRow(rows[k], e, now)], used, settled + [rows[k].id], workers)
    ensures MemoryOk(rows[k := UnsavedRow(rows[k])], used, settled + [rows[k].id], workers)
    ensures DiskOk(rows[k := EndRow(rows[k], e, now)], used)
  {
    EndedMemory(rows, k, EndRow(rows[k], e, now), used, settled, workers);
    EndedMemory(rows, k, UnsavedRow(rows[k]), used, settled, workers);
  }

  // ---- Which findings are unacknowledged ----

  /** Memory shows exactly the `returned` unacknowledged findings, the disk holds exactly the `unconfirmed` ones. */
  ghost predicate FindingsOk(rows: seq<Row>, disk: seq<Row>, used: set<ReviewId>, acked: set<ReviewId>,
                             returned: set<ReviewId>, unconfirmed: set<ReviewId>) {
    && Unacknowledged(rows, acked) == returned
    && Unacknowledged(disk, acked) == unconfirmed
    && Open(rows, acked) && acked <= used
  }

  /** The ids that still have a row. */
  function Retained(ids: set<ReviewId>, rows: seq<Row>): set<ReviewId> {
    set r | r in rows && r.id in ids :: r.id
  }

  lemma EndedFindings(rows: seq<Row>, k: nat, r': Row, acked: set<ReviewId>)
    requires RowsOk(rows) && Open(rows, acked) && k < |rows| && rows[k].status == Running
    requires r'.id == rows[k].id && r'.status != Running
    ensures r'.findings.None? ==> Unacknowledged(rows[k := r'], acked) == Unacknowledged(rows, acked)
    ensures r'.findings.Some? ==> Unacknowledged(rows[k := r'], acked) == Unacknowledged(rows, acked) + {r'.id}
    ensures Unacknowledged(rows[k := r'], acked + {r'.id}) == Unacknowledged(rows, acked)
    ensures Open(rows[k := r'], acked + {r'.id})
  {
    var rows' := rows[k := r'];
    assert rows[k] in rows && rows'[k] in rows';
    forall q | q in rows
      ensures q == rows[k] || (q in rows' && q.id != r'.id && q.status != Running)
    {
      var i :| 0 <= i < |rows| && rows[i] == q;
      assert rows'[i] == if i == k then r' else q;
    }
    forall q | q in rows'
      ensures q == r' || (q in rows && q != rows[k] && q.id != r'.id)
    {
      var i :| 0 <= i < |rows'| && rows'[i] == q;
    }
  }

  lemma AppendedFindings(rows: seq<Row>, r: Row, acked: set<ReviewId>, returned: set<ReviewId>)
    requires RowsOk(rows) && Unacknowledged(rows, acked) == returned && r.findings.None? && r.id !in returned
    ensures Unacknowledged(Newest(rows) + [r], acked) == Retained(returned, Newest(rows) + [r])
  {
    NewestAreRows(rows);
    var rows' := Newest(rows) + [r];
    forall q | q in rows'
      ensures q.findings.Some? && q.id !in acked <==> q.id in returned
    {
      if q != r { ReturnedRow(rows, q, acked); }
    }
  }

  lemma ReturnedRow(rows: seq<Row>, q: Row, acked: set<ReviewId>)
    requires RowsOk(rows) && q in rows
    ensures q.findings.Some? && q.id !in acked <==> q.id in Unacknowledged(rows, acked)
  {
    if q.id in Unacknowledged(rows, acked) {
      var p :| p in rows && p.findings.Some? && p.id !in acked && p.id == q.id;
      assert p == q;
    }
  }

  lemma AdmittedFindings(rows: seq<Row>, disk: seq<Row>, r: Row, used: set<ReviewId>, acked: set<ReviewId>,
                         returned: set<ReviewId>, unconfirmed: set<ReviewId>)
    requires FindingsOk(rows, disk, used, acked, returned, unconfirmed) && RowsOk(rows) && IdsWithin(rows, used)
    requires r.findings.None? && r.id !in used && !AnyRunning(rows)
    ensures var candidate := Newest(rows) + [r];
      && FindingsOk(candidate, candidate, used + {r.id}, acked, Retained(returned, candidate), Retained(returned, candidate))
      && FindingsOk(rows, candidate, used + {r.id}, acked, returned, Retained(returned, candidate))
      && FindingsOk(rows, disk, used + {r.id}, acked, returned, unconfirmed)
  {
    AppendedFindings(rows, r, acked, returned);
    NewestAreRows(rows);
    var candidate := Newest(rows) + [r];
    assert forall q | q in candidate :: q in Newest(rows) || q == r;
  }

  lemma AdmittedCalls(rows: seq<Row>, r: Row, calls: seq<ReviewId>)
    requires FromCalls(rows, calls) && r.findings.None?
    ensures FromCalls(Newest(rows) + [r], calls)
  {
    NewestAreRows(rows);
  }

  lemma ReplacedCalls(rows: seq<Row>, k: nat, r': Row, calls: seq<ReviewId>)
    requires FromCalls(rows, calls) && k < |rows| && (r'.findings.Some? ==> r'.id in calls || r' == rows[k])
    ensures FromCalls(rows[k := r'], calls)
  {
    assert forall q | q in rows[k := r'] :: q in rows || q == r';
  }

  lemma CancelledFindings(rows: seq<Row>, disk: seq<Row>, k: nat, now: nat, used: set<ReviewId>, acked: set<ReviewId>,
                          returned: set<ReviewId>, unconfirmed: set<ReviewId>)
    requires FindingsOk(rows, disk, used, acked, returned, unconfirmed) && RowsOk(rows) && k < |rows|
    ensures var candidate := rows[k := CancelRow(rows[k], now)];
      && FindingsOk(candidate, candidate, used, acked, returned, returned)
      && FindingsOk(rows, candidate, used, acked, returned, returned)
  {
    assert rows[k] in rows;
    if rows[k].status == Running {
      EndedFindings(rows, k, CancelRow(rows[k], now), acked);
    } else {
      assert rows[k := rows[k]] == rows;
    }
  }

  lemma SavedFindings(rows: seq<Row>, disk: seq<Row>, k: nat, e: Ending, now: nat, used: set<ReviewId>, acked: set<ReviewId>,
                      returned: set<ReviewId>, unconfirmed: set<ReviewId>)
    requires FindingsOk(rows, disk, used, acked, returned, unconfirmed) && RowsOk(rows) && IdsWithin(rows, used)
    requires EndingOk(e) && k < |rows| && rows[k].status == Running
    ensures var saved := rows[k := EndRow(rows[k], e, now)];
      FindingsOk(saved, saved, used, acked + {rows[k].id}, returned, returned)
  {
    assert rows[k] in rows;
    EndedFindings(rows, k, EndRow(rows[k], e, now), acked);
  }

  lemma LostFindings(rows: seq<Row>, disk: seq<Row>, k: nat, used: set<ReviewId>, acked: set<ReviewId>,
                     returned: set<ReviewId>, unconfirmed: set<ReviewId>)
    requires FindingsOk(rows, disk, used, acked, returned, unconfirmed) && RowsOk(rows)
    requires k < |rows| && rows[k].status == Running
    ensures FindingsOk(rows[k := UnsavedRow(rows[k])], disk, used, acked, returned, unconfirmed)
  {
    EndedFindings(rows, k, UnsavedRow(rows[k]), acked);
  }

  lemma UncertainFindings(rows: seq<Row>, disk: seq<Row>, k: nat, e: Ending, now: nat, used: set<ReviewId>, acked: set<ReviewId>,
                          returned: set<ReviewId>, unconfirmed: set<ReviewId>)
    requires FindingsOk(rows, disk, used, acked, returned, unconfirmed) && RowsOk(rows)
    requires EndingOk(e) && k < |rows| && rows[k].status == Running
    ensures FindingsOk(rows[k := UnsavedRow(rows[k])], rows[k := EndRow(rows[k], e, now)], used, acked, returned,
                       if e.findings.Some? then returned + {rows[k].id} else returned)
  {
    EndedFindings(rows, k, EndRow(rows[k], e, now), acked);
    EndedFindings(rows, k, UnsavedRow(rows[k]), acked);
  }

  lemma AbortedFindings(rows: seq<Row>, disk: seq<Row>, k: nat, now: nat, used: set<ReviewId>, acked: set<ReviewId>,
                        returned: set<ReviewId>, unconfirmed: set<ReviewId>)
    requires FindingsOk(rows, disk, used, acked, returned, unconfirmed) && RowsOk(rows) && k < |rows| && rows[k].status == Running
    ensures FindingsOk(rows, rows[k := EndRow(rows[k], TIMED_OUT, now)], used, acked, returned, returned)
  {
    EndedFindings(rows, k, EndRow(rows[k], TIMED_OUT, now), acked);
  }

  lemma RestoredCalls(disk: seq<Row>, rows: seq<Row>, calls: seq<ReviewId>)
    requires |rows| == |disk| && FromCalls(disk, calls)
    requires forall k | 0 <= k < |disk| :: rows[k].id == disk[k].id && rows[k].findings == disk[k].findings
    ensures FromCalls(rows, calls)
  {
    forall r | r in rows && r.findings.Some?
      ensures r.id in calls
    {
      var k :| 0 <= k < |rows| && rows[k] == r;
      assert disk[k] in disk;
    }
  }

  lemma RestoredFindings(disk: seq<Row>, rows: seq<Row>, acked: set<ReviewId>)
    requires |rows| == |disk|
    requires forall k | 0 <= k < |disk| :: rows[k].id == disk[k].id && rows[k].findings == disk[k].findings
    ensures Unacknowledged(rows, acked) == Unacknowledged(disk, acked)
  {
    forall id | id in Unacknowledged(rows, acked) ensures id in Unacknowledged(disk, acked) {
      var k :| 0 <= k < |rows| && rows[k].findings.Some? && rows[k].id == id;
      assert disk[k] in disk;
    }
    forall id | id in Unacknowledged(disk, acked) ensures id in Unacknowledged(rows, acked) {
      var k :| 0 <= k < |disk| && disk[k].findings.Some? && disk[k].id == id;
      assert rows[k] in rows;
    }
  }

  lemma Called(workers: map<ReviewId, Worker>, calls: seq<ReviewId>, settled: seq<ReviewId>, used: set<ReviewId>, id: ReviewId)
    requires TasksOk(workers, calls, settled, used) && id in workers && workers[id].stage == Spawned
    ensures TasksOk(workers[id := workers[id].(stage := Calling)], calls + [id], settled, used)
  {
    Resized(workers, id, workers[id].(stage := Calling));
  }

  lemma FewerTasks(rows: seq<Row>, used: set<ReviewId>, settled: seq<ReviewId>, workers: map<ReviewId, Worker>,
                   calls: seq<ReviewId>, id: ReviewId)
    requires MemoryOk(rows, used, settled, workers) && TasksOk(workers, calls, settled, used) && id in workers
    requires forall r | r in rows && r.id == id :: r.status != Running
    ensures MemoryOk(rows, used, settled, workers - {id}) && TasksOk(workers - {id}, calls, settled, used)
  {
    assert (workers - {id}).Keys == workers.Keys - {id};
    assert |workers - {id}| == |(workers - {id}).Keys| && |workers| == |workers.Keys|;
  }

  lemma Restored(disk: seq<Row>, rows: seq<Row>, used: set<ReviewId>)
    requires DiskOk(disk, used) && |rows| == |disk| && RowsOk(rows) && !AnyRunning(rows)
    requires forall k | 0 <= k < |disk| :: rows[k].id == disk[k].id
    ensures MemoryOk(rows, used, [], map[])
  {
    forall r | r in rows
      ensures r.id in used
    {
      var k :| 0 <= k < |rows| && rows[k] == r;
      assert disk[k] in disk;
    }
  }

  class ReviewSession {
    var rows: seq<Row>
    var disk: seq<Row>
    var generation: nat
    var diskGeneration: nat
    var workers: map<ReviewId, Worker>
    // History of the session, read by no operation.
    var used: set<ReviewId>
    var calls: seq<ReviewId>
    var settled: seq<ReviewId>
    /** Reviews whose settling save was acknowledged. */
    var acked: set<ReviewId>
    /** Reviews whose findings were written by a save that was reported as failed, unless a later write covered them. */
    var unconfirmed: set<ReviewId>
    /** Such reviews that a restart brought back. */
    var returned: set<ReviewId>

    ghost predicate Valid()
      reads this
    {
      && MemoryOk(rows, used, settled, workers)
      && DiskOk(disk, used)
      && FindingsOk(rows, disk, used, acked, returned, unconfirmed)
      && TasksOk(workers, calls, settled, used)
      && FromCalls(rows, calls) && FromCalls(disk, calls)
    }

    constructor ()
      ensures Valid() && rows == disk == [] && workers == map[] && used == acked == returned == unconfirmed == {}
    {
      rows, disk, generation, diskGeneration, workers := [], [], 0, 0, map[];
      used, calls, settled, acked, unconfirmed, returned := {}, [], [], {}, {}, {};
    }

    /** What a worker or its watcher checks under the transaction before it goes on. */
    predicate Permitted(id: ReviewId, captured: nat)
      reads this
    {
      && generation == captured
      && var k := Find(rows, id);
         k.Some? && rows[k.value].status == Running
    }

    /**
     Requests a review. A repeated request id with a retained row returns that row or a conflict and starts
     nothing. `eligible`: the session is a chat, owned, and not cleared since the client read it; `answer`: the message
     to review, if it is there; `available`: the outcome of the model and provider checks.
     */
    method Request(request: string, message: Option<string>, focus: Option<string>, eligible: bool, answer: Option<string>,
                   available: bool, unused: ReviewId, now: nat, save: Save) returns (r: Result<Row>)
      requires Valid() && unused !in used
      modifies this
      ensures Valid()
      ensures forall q | q in old(rows) && q.request == request ::
                && r == (if eligible && q.focus == focus && (message.Some? ==> message.value == q.source) then Ok(q) else Err)
                && rows == old(rows) && disk == old(disk) && workers == old(workers)
      ensures (forall q | q in old(rows) :: q.request != request) ==>
                && (r.Ok? <==> eligible && !AnyRunning(old(rows)) && answer.Some? && save.Saved?)
                && (r.Ok? ==> r.value.source == answer.value && r.value.focus == focus && r.value.created == now && r.value.findings.None?)
                && (r.Ok? ==> rows == disk == Newest(old(rows)) + [r.value] && r.value.id == unused && r.value.request == request)
                && (r.Ok? ==> r.value.status == if available && |old(workers)| < 2 then Running else Unavailable)
                && (r.Ok? ==> workers == if r.value.status == Running then old(workers)[unused := Worker(generation, false, Spawned)]
                                         else old(workers))
      ensures r.Err? ==> rows == old(rows) && workers == old(workers)
      ensures generation == old(generation) && calls == old(calls) && settled == old(settled) && acked == old(acked)
    {
      if !eligible { return Err; }
      var found := FindRequest(rows, request);
      if found.Some? {
        var row := rows[found.value];
        assert forall q | q in rows && q.request == request :: q == row;
        r := if row.focus != focus || (message.Some? && message.value != row.source) then Err else Ok(row);
        return;
      }
      r := Err;
      if AnyRunning(rows) || answer.None? { return; }
      var running := available && |workers| < PHYSICAL_SLOTS;
      var row := Row(unused, request, answer.value, focus, if running then Running else Unavailable, now,
                     if running then None else Some(now), None, if running then None else Some("unavailable"));
      var ok := Admit(row, save);
      if ok { r := Ok(row); }
    }

    /** Saves the rows with a new one, publishes them once the save is acknowledged, and spawns its task. */
    method Admit(row: Row, save: Save) returns (ok: bool)
      requires Valid() && row.id !in used && !AnyRunning(rows) && row.findings.None?
      requires forall q | q in rows :: q.request != row.request
      requires row.status == Running ==> |workers| < PHYSICAL_SLOTS
      modifies this`rows, this`disk, this`diskGeneration, this`workers, this`used, this`returned, this`unconfirmed
      ensures Valid() && ok == save.Saved?
      ensures var kept := Retained(old(returned), Newest(old(rows)) + [row]);
        && unconfirmed == (if save.Lost? then old(unconfirmed) else kept)
        && returned == (if ok then kept else old(returned))
      ensures diskGeneration == if save.Lost? then old(diskGeneration) else generation
      ensures ok ==> rows == disk == Newest(old(rows)) + [row]
      ensures ok ==> workers == if row.status == Running then old(workers)[row.id := Worker(generation, false, Spawned)] else old(workers)
      ensures !ok ==> rows == old(rows) && workers == old(workers)
    {
      var candidate := Evict(rows);
      candidate := candidate + [row];
      var spawned := if row.status == Running then workers[row.id := Worker(generation, false, Spawned)] else workers;
      AdmittedMemory(rows, row, used, settled, workers, calls, spawned);
      AdmittedFindings(rows, disk, row, used, acked, returned, unconfirmed);
      AdmittedCalls(rows, row, calls);
      ok := SaveAdmitted(row.id, candidate, spawned, Retained(returned, candidate), save);
    }

    method SaveAdmitted(id: ReviewId, candidate: seq<Row>, spawned: map<ReviewId, Worker>, kept: set<ReviewId>, save: Save) returns (ok: bool)
      requires DiskOk(disk, used) && MemoryOk(rows, used + {id}, settled, workers) && TasksOk(workers, calls, settled, used + {id})
      requires MemoryOk(candidate, used + {id}, settled, spawned) && TasksOk(spawned, calls, settled, used + {id})
      requires FindingsOk(rows, disk, used + {id}, acked, returned, unconfirmed)
      requires FindingsOk(rows, candidate, used + {id}, acked, returned, kept)
      requires FindingsOk(candidate, candidate, used + {id}, acked, kept, kept)
      requires FromCalls(rows, calls) && FromCalls(disk, calls) && FromCalls(candidate, calls)
      modifies this`rows, this`disk, this`diskGeneration, this`workers, this`used, this`returned, this`unconfirmed
      ensures Valid() && ok == save.Saved?
      ensures rows == (if ok then candidate else old(rows)) && workers == (if ok then spawned else old(workers))
      ensures disk == (if save.Lost? then old(disk) else candidate) && unconfirmed == (if save.Lost? then old(unconfirmed) else kept)
      ensures returned == (if ok then kept else old(returned))
      ensures diskGeneration == if save.Lost? then old(diskGeneration) else generation
    {
      DiskGrows(disk, used, used + {id});
      used := used + {id};
      match save {
        case Saved =>
          rows, workers, returned := candidate, spawned, kept;
          disk, diskGeneration, unconfirmed := candidate, generation, kept;
        case Lost =>
        case Uncertain =>
          disk, diskGeneration, unconfirmed := candidate, generation, kept;
      }
      ok := save.Saved?;
    }

    /** The owner cancels: the row is published as cancelled only when that is saved, and its task is signalled. */
    method Cancel(id: ReviewId, now: nat, save: Save) returns (r: Result<Row>)
      requires Valid()
      modifies this
      ensures Valid()
      ensures var k := Find(old(rows), id);
        && (r.Ok? <==> k.Some? && save.Saved?)
        && (r.Ok? ==> r.value == CancelRow(old(rows)[k.value], now) && rows == disk == old(rows)[k.value := r.value])
        && (r.Ok? && old(rows)[k.value].status == Running ==> settled == old(settled) + [id])
        && (r.Ok? && old(rows)[k.value].status == Running ==>
              && r.value.status == Cancelled && r.value.finished == Some(now) && r.value.findings.None? && r.value.error == Some(CANCELLED)
              && r.value.request == old(rows)[k.value].request && (id in workers ==> workers[id].cancelled))
        && (r.Ok? && old(rows)[k.value].status != Running ==> r.value == old(rows)[k.value])
      ensures r.Err? ==> rows == old(rows) && settled == old(settled) && workers == old(workers)
      ensures workers.Keys == old(workers).Keys && returned == old(returned) && acked == old(acked)
      ensures unconfirmed == if Find(old(rows), id).None? || save.Lost? then old(unconfirmed) else returned
      ensures generation == old(generation)
      ensures diskGeneration == if Find(old(rows), id).None? || save.Lost? then old(diskGeneration) else generation
    {
      r := Err;
      var k := Find(rows, id);
      if k.Some? {
        var current := CancelRow(rows[k.value], now);
        assert rows[k.value] in rows;
        var ok := SaveCancel(k.value, now, save);
        if ok {
          if current.status == Cancelled { Signal(id); }
          r := Ok(current);
        }
      }
    }

    /** Saves the rows with one of them cancelled, and publishes them once the save is acknowledged. */
    method SaveCancel(k: nat, now: nat, save: Save) returns (ok: bool)
      requires Valid() && k < |rows|
      modifies this`rows, this`disk, this`diskGeneration, this`settled, this`unconfirmed
      ensures Valid() && ok == save.Saved?
      ensures rows == if ok then old(rows)[k := CancelRow(old(rows)[k], now)] else old(rows)
      ensures disk == if save.Lost? then old(disk) else old(rows)[k := CancelRow(old(rows)[k], now)]
      ensures settled == if ok && old(rows)[k].status == Running then old(settled) + [old(rows)[k].id] else old(settled)
      ensures unconfirmed == if save.Lost? then old(unconfirmed) else returned
      ensures diskGeneration == if save.Lost? then old(diskGeneration) else generation
    {
      var candidate := rows[k := CancelRow(rows[k], now)];
      CancelOk(rows, k, now, used, settled, workers, calls);
      CancelledFindings(rows, disk, k, now, used, acked, returned, unconfirmed);
      assert RowOk(rows[k]) by { assert rows[k] in rows; }
      ReplacedCalls(rows, k, CancelRow(rows[k], now), calls);
      match save {
        case Saved =>
          settled := if rows[k].status == Running then settled + [rows[k].id] else settled;
          rows, disk, diskGeneration, unconfirmed := candidate, candidate, generation, returned;
        case Lost =>
        case Uncertain =>
          disk, diskGeneration, unconfirmed := candidate, generation, returned;
      }
      ok := save.Saved?;
    }

    /** Raises the cancel signal of a review, if its task is alive. */
    method Signal(id: ReviewId)
      requires Valid()
      modifies this`workers
      ensures Valid()
      ensures workers == if id in old(workers) then old(workers)[id := old(workers)[id].(cancelled := true)] else old(workers)
    {
      if id in workers {
        Resized(workers, id, workers[id].(cancelled := true));
        workers := workers[id := workers[id].(cancelled := true)];
      }
    }

    /**
     Settles a running row, once: whoever comes later finds it settled and changes nothing. Findings are published
     only after an acknowledged save; after a failed one the row is failed and shows none, whatever was written.
     */
    method Finish(id: ReviewId, end: Ending, now: nat, save: Save)
      requires Valid() && EndingOk(end) && (end.findings.Some? ==> id in calls)
      modifies this`rows, this`disk, this`diskGeneration, this`settled, this`acked, this`unconfirmed
      ensures Valid()
      ensures rows == FinishedRows(old(rows), id, end, now, save)
      ensures forall r | r in rows && r.id == id :: r.status != Running
      ensures IsRunning(old(rows), id) ==> EndedAs(old(rows)[Find(old(rows), id).value], rows[Find(old(rows), id).value], end, now, save)
      ensures if IsRunning(old(rows), id) then
          && settled == old(settled) + [id]
          && acked == (if save.Saved? then old(acked) + {id} else old(acked))
          && disk == (if save.Lost? then old(disk) else FinishedRows(old(rows), id, end, now, Saved))
          && unconfirmed == (match save case Saved => returned case Lost => old(unconfirmed)
                             case Uncertain => if end.findings.Some? then returned + {id} else returned)
        else disk == old(disk) && settled == old(settled) && acked == old(acked) && unconfirmed == old(unconfirmed)
      ensures diskGeneration == if !IsRunning(old(rows), id) || save.Lost? then old(diskGeneration) else generation
    {
      var k := Find(rows, id);
      if k.Some? && rows[k.value].status == Running {
        Settle(k.value, end, now, save);
      }
      StaysSettled(old(rows), rows, id);
    }

    method Settle(k: nat, end: Ending, now: nat, save: Save)
      requires Valid() && EndingOk(end) && k < |rows| && rows[k].status == Running && (end.findings.Some? ==> rows[k].id in calls)
      modifies this`rows, this`disk, this`diskGeneration, this`settled, this`acked, this`unconfirmed
      ensures Valid()
      ensures rows == old(rows)[k := if save.Saved? then EndRow(old(rows)[k], end, now) else UnsavedRow(old(rows)[k])]
      ensures disk == if save.Lost? then old(disk) else old(rows)[k := EndRow(old(rows)[k], end, now)]
      ensures settled == old(settled) + [old(rows)[k].id]
      ensures acked == if save.Saved? then old(acked) + {old(rows)[k].id} else old(acked)
      ensures unconfirmed == match save case Saved => returned case Lost => old(unconfirmed)
                             case Uncertain => if end.findings.Some? then returned + {old(rows)[k].id} else returned
      ensures diskGeneration == if save.Lost? then old(diskGeneration) else generation
    {
      var row := rows[k];
      FinishOk(rows, k, end, now, used, settled, workers);
      SettledTasks(workers, calls, settled, used, rows, k);
      ReplacedCalls(rows, k, EndRow(row, end, now), calls);
      ReplacedCalls(rows, k, UnsavedRow(row), calls);
      var saved, unsaved := rows[k := EndRow(row, end, now)], rows[k := UnsavedRow(row)];
      match save {
        case Saved =>
          SavedFindings(rows, disk, k, end, now, used, acked, returned, unconfirmed);
          Put(row.id, saved, saved, acked + {row.id}, returned);
          diskGeneration := generation;
        case Lost =>
          LostFindings(rows, disk, k, used, acked, returned, unconfirmed);
          Put(row.id, unsaved, disk, acked, unconfirmed);
        case Uncertain =>
          UncertainFindings(rows, disk, k, end, now, used, acked, returned, unconfirmed);
          Put(row.id, unsaved, saved, acked, if end.findings.Some? then returned + {row.id} else returned);
          diskGeneration := generation;
      }
    }

    /** A settlement takes effect, in memory and on disk. */
    method Put(id: ReviewId, newRows: seq<Row>, newDisk: seq<Row>, newAcked: set<ReviewId>, newUnconfirmed: set<ReviewId>)
      requires MemoryOk(newRows, used, settled + [id], workers) && DiskOk(newDisk, used) && TasksOk(workers, calls, settled + [id], used)
      requires FindingsOk(newRows, newDisk, used, newAcked, returned, newUnconfirmed)
      requires FromCalls(newRows, calls) && FromCalls(newDisk, calls)
      modifies this`rows, this`disk, this`settled, this`acked, this`unconfirmed
      ensures Valid() && rows == newRows && disk == newDisk && settled == old(settled) + [id]
      ensures acked == newAcked && unconfirmed == newUnconfirmed
    {
      rows, disk, settled, acked, unconfirmed := newRows, newDisk, settled + [id], newAcked, newUnconfirmed;
    }

    /** A task's next stage; the row it attends stays attended. */
    method Advance(id: ReviewId, stage: Stage)
      requires Valid() && id in workers && StageOk(stage) && stage != Spawned && (MayFind(stage) ==> id in calls)
      modifies this`workers
      ensures Valid() && workers == old(workers)[id := old(workers)[id].(stage := stage)]
    {
      Resized(workers, id, workers[id].(stage := stage));
      workers := workers[id := workers[id].(stage := stage)];
    }

    /** The check before the model is called: the profile is still owned, the review wanted and its conversation unchanged. */
    method CheckDispatch(id: ReviewId, owned: bool)
      requires Valid() && id in workers && workers[id].stage == Spawned
      modifies this`workers, this`calls
      ensures Valid() && id in workers && workers == old(workers)[id := old(workers)[id].(stage := workers[id].stage)]
      ensures var permitted := owned && !old(workers)[id].cancelled && old(Permitted(id, workers[id].generation));
        && calls == (if permitted then old(calls) + [id] else old(calls))
        && (permitted <==> workers[id].stage == Calling)
        && (!permitted ==> workers[id].stage.Finishing? && workers[id].stage.end.status == Cancelled && workers[id].stage.end.findings.None?)
    {
      if owned && !workers[id].cancelled && Permitted(id, workers[id].generation) {
        Called(workers, calls, settled, used, id);
        workers := workers[id := workers[id].(stage := Calling)];
        calls := calls + [id];
      } else {
        Advance(id, Finishing(Ending(Cancelled, None, Some("Review source or authorization changed before dispatch"))));
      }
    }

    /** One round of the watcher: a review that is no longer wanted is signalled, an overdue one fails. */
    method Watch(id: ReviewId, owned: bool, overdue: bool, now: nat, save: Save)
      requires Valid() && id in workers && workers[id].stage == Calling
      modifies this
      ensures Valid() && id in workers
      ensures !owned || !old(Permitted(id, workers[id].generation)) || overdue ==> workers[id].cancelled
      ensures workers == old(workers)[id := old(workers)[id].(cancelled := workers[id].cancelled)]
      ensures generation == old(generation) && calls == old(calls) && returned == old(returned)
      ensures !owned || !old(Permitted(id, workers[id].generation)) || !overdue ==>
                rows == old(rows) && disk == old(disk) && settled == old(settled) && acked == old(acked) && unconfirmed == old(unconfirmed)
      ensures owned && old(Permitted(id, workers[id].generation)) && !overdue ==> workers == old(workers)
      ensures owned && old(Permitted(id, workers[id].generation)) && overdue ==>
                settled == old(settled) + [id] && forall r | r in rows && r.id == id :: r.status == Failed
    {
      var permitted := owned && Permitted(id, workers[id].generation);
      if !permitted || overdue { Signal(id); }
      if permitted && overdue { TimeOut(id, now, save); }
    }

    method TimeOut(id: ReviewId, now: nat, save: Save)
      requires Valid() && IsRunning(rows, id)
      modifies this`rows, this`disk, this`diskGeneration, this`settled, this`acked, this`unconfirmed
      ensures Valid() && settled == old(settled) + [id] && forall r | r in rows && r.id == id :: r.status == Failed
    {
      ghost var before := rows;
      Finish(id, TIMED_OUT, now, save);
      assert forall r | r in rows && r.id == id :: r == rows[Find(before, id).value];
    }

    /** The watcher is aborted inside its own save, which may have taken effect: memory keeps the running row. */
    method AbortFinish(id: ReviewId, now: nat, took: bool)
      requires Valid()
      modifies this`disk, this`diskGeneration, this`unconfirmed
      ensures Valid()
      ensures disk == if took && IsRunning(rows, id) then FinishedRows(rows, id, TIMED_OUT, now, Saved) else old(disk)
      ensures unconfirmed == if took && IsRunning(rows, id) then returned else old(unconfirmed)
      ensures diskGeneration == if took && IsRunning(rows, id) then generation else old(diskGeneration)
    {
      var k := Find(rows, id);
      if took && k.Some? && rows[k.value].status == Running {
        FinishOk(rows, k.value, TIMED_OUT, now, used, settled, workers);
        AbortedFindings(rows, disk, k.value, now, used, acked, returned, unconfirmed);
        ReplacedCalls(rows, k.value, EndRow(rows[k.value], TIMED_OUT, now), calls);
        disk, diskGeneration, unconfirmed := rows[k.value := EndRow(rows[k.value], TIMED_OUT, now)], generation, returned;
      }
    }

    /** The model call returns: `opinion` is its text if it is a valid, bounded one. */
    method Return(id: ReviewId, opinion: Option<string>)
      requires Valid() && id in workers && workers[id].stage == Calling
      modifies this`workers
      ensures Valid() && id in workers && workers == old(workers)[id := old(workers)[id].(stage := workers[id].stage)]
      ensures workers[id].stage.Finishing?
      ensures var end := workers[id].stage.end;
        && end.status == (if old(workers)[id].cancelled then Cancelled else if opinion.Some? then Completed else Failed)
        && end.findings == (if old(workers)[id].cancelled then None else opinion)
    {
      Advance(id, Finishing(
                    if workers[id].cancelled then Ending(Cancelled, None, Some("Review cancelled before a valid result was saved"))
                    else if opinion.Some? then Ending(Completed, opinion, None)
                    else Ending(Failed, None, Some("Reviewer returned no valid bounded opinion; no tools or actions were run"))));
    }

    /** The last step of a task: it settles its row if nobody has, and gives its slot back. */
    method Leave(id: ReviewId, now: nat, save: Save)
      requires Valid() && id in workers && workers[id].stage.Finishing?
      modifies this
      ensures Valid() && workers == old(workers) - {id} && returned == old(returned)
      ensures rows == FinishedRows(old(rows), id, old(workers)[id].stage.end, now, save)
      ensures forall r | r in rows && r.id == id :: r.status != Running
      ensures generation == old(generation) && calls == old(calls)
      ensures if IsRunning(old(rows), id) then
          && settled == old(settled) + [id]
          && acked == (if save.Saved? then old(acked) + {id} else old(acked))
          && disk == (if save.Lost? then old(disk) else FinishedRows(old(rows), id, old(workers)[id].stage.end, now, Saved))
          && unconfirmed == (match save case Saved => returned case Lost => old(unconfirmed)
                             case Uncertain => if old(workers)[id].stage.end.findings.Some? then returned + {id} else returned)
        else disk == old(disk) && settled == old(settled) && acked == old(acked) && unconfirmed == old(unconfirmed)
    {
      Finish(id, workers[id].stage.end, now, save);
      FewerTasks(rows, used, settled, workers, calls, id);
      workers := workers - {id};
    }

    /** The conversation is cleared: its rows go, its tasks are signalled, a new generation begins. */
    method Clear(save: Save) returns (ok: bool)
      requires Valid()
      modifies this`rows, this`disk, this`generation, this`diskGeneration, this`workers, this`returned, this`unconfirmed
      ensures Valid() && ok == save.Saved?
      ensures !save.Lost? ==> unconfirmed == {} && disk == []
      ensures diskGeneration == if save.Lost? then old(diskGeneration) else old(generation) + 1
      ensures ok ==> rows == disk == [] && generation == old(generation) + 1 && workers.Keys == old(workers).Keys
      ensures ok ==> forall r | r in old(rows) && r.id in workers :: workers[r.id].cancelled
      ensures !ok ==> rows == old(rows) && generation == old(generation) && workers == old(workers)
    {
      var cleared := rows;
      ok := SaveCleared(save);
      if ok { SignalAll(cleared); }
    }

    method SaveCleared(save: Save) returns (ok: bool)
      requires Valid()
      modifies this`rows, this`disk, this`generation, this`diskGeneration, this`returned, this`unconfirmed
      ensures Valid() && ok == save.Saved?
      ensures !save.Lost? ==> unconfirmed == {} && disk == []
      ensures diskGeneration == if save.Lost? then old(diskGeneration) else old(generation) + 1
      ensures ok ==> rows == disk == [] && generation == old(generation) + 1
      ensures !ok ==> rows == old(rows) && generation == old(generation)
    {
      if !save.Lost? { disk, diskGeneration, unconfirmed := [], generation + 1, {}; }
      ok := save.Saved?;
      if ok { rows, generation, returned := [], generation + 1, {}; }
    }

    method SignalAll(cleared: seq<Row>)
      requires Valid()
      modifies this`workers
      ensures Valid() && workers.Keys == old(workers).Keys
      ensures forall r | r in cleared && r.id in workers :: workers[r.id].cancelled
    {
      for i := 0 to |cleared|
        invariant Valid() && workers.Keys == old(workers).Keys
        invariant forall k | 0 <= k < i && cleared[k].id in workers :: workers[cleared[k].id].cancelled
      {
        Signal(cleared[i].id);
      }
    }

    /** Any other save of the control plane writes the rows as they are in memory. */
    method SaveRows(save: Save)
      requires Valid()
      modifies this`disk, this`diskGeneration, this`unconfirmed
      ensures Valid() && disk == (if save.Lost? then old(disk) else rows)
      ensures unconfirmed == if save.Lost? then old(unconfirmed) else returned
      ensures diskGeneration == if save.Lost? then old(diskGeneration) else generation
    {
      if !save.Lost? {
        MemoryIsSavable(rows, used, settled, workers);
        disk, diskGeneration, unconfirmed := rows, generation, returned;
      }
    }

    /** The process ends at any point and starts again from the saved rows: nothing is running. */
    method Restart()
      requires Valid()
      modifies this`rows, this`generation, this`workers, this`settled, this`returned
      ensures Valid() && !AnyRunning(rows) && workers == map[] && settled == [] && |rows| == |disk|
      ensures forall k | 0 <= k < |disk| && disk[k].status != Running :: rows[k] == disk[k]
      ensures returned == unconfirmed && generation == diskGeneration
    {
      rows := InterruptOnRestore(disk);
      Restored(disk, rows, used);
      RestoredFindings(disk, rows, acked);
      RestoredCalls(disk, rows, calls);
      generation, workers, settled, returned := diskGeneration, map[], [], unconfirmed;
    }
  }

  // ---- What follows for every run ----

  /** A review is wanted while its row is running and the conversation is the one it was captured from. */
  lemma WantedMeans(s: ReviewSession, id: ReviewId, captured: nat)
    requires s.Valid()
    ensures s.Permitted(id, captured) <==> s.generation == captured && exists r :: r in s.rows && r.id == id && r.status == Running
  {
    var k := Find(s.rows, id);
    if k.Some? { assert s.rows[k.value] in s.rows; }
  }

  /** A row leaves running at most once in a process, and no review calls the model twice. */
  lemma SettlesOnce(s: ReviewSession)
    requires s.Valid()
    ensures forall i, k | 0 <= i < k < |s.settled| :: s.settled[i] != s.settled[k]
    ensures forall i, k | 0 <= i < k < |s.calls| :: s.calls[i] != s.calls[k]
    ensures forall i, k | 0 <= i < k < |s.rows| :: s.rows[i].status != Running || s.rows[k].status != Running
    ensures |s.rows| <= 20 && |s.workers| <= 2
  {
  }

  /**
   Findings belong to a completed row, and the save of its findings was acknowledged exactly when the review is not
   among those written by an unconfirmed save (on disk) or brought back by a restart (in memory).
   */
  lemma FindingsAreAcknowledged(s: ReviewSession, r: Row)
    requires s.Valid()
    ensures r in s.rows && r.findings.Some? ==> r.status == Completed && r.id in s.calls && (r.id in s.acked <==> r.id !in s.returned)
    ensures r in s.disk && r.findings.Some? ==> r.status == Completed && r.id in s.calls && (r.id in s.acked <==> r.id !in s.unconfirmed)
    ensures forall id :: id in s.returned <==> exists q :: q in s.rows && q.id == id && q.findings.Some? && id !in s.acked
    ensures forall id :: id in s.unconfirmed <==> exists q :: q in s.disk && q.id == id && q.findings.Some? && id !in s.acked
  {
    assert r in s.rows ==> RowOk(r);
    assert r in s.disk ==> RowOk(r);
  }

  /**
   Unacknowledged findings are real, for every review that is admitted and still wanted: its model call returns an
   opinion, the save is reported as failed after it took effect, and the row that memory shows as failed without
   findings comes back completed with them after a restart.
   */
  method FailedReviewReturns(s: ReviewSession, id: ReviewId, opinion: string, now: nat) returns (shown: Row, later: Row)
    requires s.Valid() && id in s.workers && s.workers[id].stage == Spawned && !s.workers[id].cancelled
    requires s.Permitted(id, s.workers[id].generation)
    modifies s
    ensures s.Valid() && s.acked == old(s.acked) && id !in s.acked && id in s.returned
    ensures shown.id == later.id == id && shown.status == Failed && shown.findings.None?
    ensures later in s.rows && later.status == Completed && later.findings == Some(opinion)
  {
    var k := CompleteUnconfirmed(s, id, opinion, now);
    shown := s.rows[k];
    s.Restart();
    later := s.rows[k];
    FindingsAreAcknowledged(s, later);
  }

  /** The life of that review up to its unconfirmed save. */
  method CompleteUnconfirmed(s: ReviewSession, id: ReviewId, opinion: string, now: nat) returns (k: nat)
    requires s.Valid() && id in s.workers && s.workers[id].stage == Spawned && !s.workers[id].cancelled
    requires s.Permitted(id, s.workers[id].generation)
    modifies s
    ensures s.Valid() && s.acked == old(s.acked) && id !in s.acked
    ensures k < |s.rows| == |s.disk| && s.rows[k].id == s.disk[k].id == id
    ensures s.rows[k].status == Failed && s.rows[k].findings.None?
    ensures s.disk[k].status == Completed && s.disk[k].findings == Some(opinion)
  {
    k := Find(s.rows, id).value;
    assert s.rows[k] in s.rows;
    s.CheckDispatch(id, true);
    s.Return(id, Some(opinion));
    s.Leave(id, now, Uncertain);
  }
}
