/**
 One durable job: its record, the check a restart makes of it, and what each operation does to it.
 Clock readings are parameters and may go backwards from one operation to the next.
 */
module JobRecords {
  import opened Wrappers

  datatype Status = AwaitingApproval | Queued | Running | PendingDelegations | Completed | Failed | NeedsReview | Cancelled | Stopped

  datatype Decision = Accepted | ChangesRequested

  datatype OutputReview = OutputReview(decision: Decision, reviewedAt: nat)

  datatype Attempt = Attempt(attempt: nat, status: Status, started: nat, finished: nat,
                             result: Option<string>, error: Option<string>, truncated: bool, review: Option<OutputReview>)

  datatype Input = Input(title: string, prompt: string, maxAttempts: nat, requiresApproval: bool, goal: Option<string>)

  /** The operations a record has been through, oldest first: kept to state properties, no operation reads it. */
  datatype Mark = Created | Retried | Approved | Claimed

  datatype Job = Job(agent: string, key: string, input: Input, status: Status, revision: nat, attempt: nat,
                     created: nat, updated: nat, started: Option<nat>, finished: Option<nat>,
                     result: Option<string>, error: Option<string>, approved: Option<nat>,
                     attempts: seq<Attempt>, stop: Option<nat>, marks: seq<Mark>)

  const MAX_REVISION: nat := 0xFFFF_FFFF_FFFF_FFFF
  const STOPPED_ERROR: string := "Stopped by owner; inspect effects before retrying"

  predicate Settled(s: Status) { s == Completed || s == Failed || s == NeedsReview }

  predicate Executing(s: Status) { s == Running || s == PendingDelegations }

  predicate Active(s: Status) { s == Queued || Executing(s) }

  // ---- What a restart demands of a saved record ----

  /** Attempt budget and approval state. */
  predicate BudgetOk(j: Job) {
    && 1 <= j.input.maxAttempts <= 3
    && j.attempt <= j.input.maxAttempts
    && |j.attempts| <= j.input.maxAttempts
    && (j.approved.Some? ==> j.input.requiresApproval && j.created <= j.approved.value <= j.updated)
    && (j.input.requiresApproval && (Active(j.status) || Settled(j.status)) ==> j.approved.Some?)
    && (j.status == AwaitingApproval ==> j.input.requiresApproval && j.approved.None?)
  }

  /** One attempt of the history. */
  predicate AttemptOk(j: Job, a: Attempt) {
    && 1 <= a.attempt <= j.attempt
    && (Settled(a.status) || a.status == Stopped)
    && j.created <= a.started <= a.finished <= j.updated
    && (a.truncated ==> a.result.Some?)
    && (Executing(j.status) ==> a.attempt != j.attempt)
    && (a.review.Some? ==> a.status == Completed && a.finished <= a.review.value.reviewedAt <= j.updated)
    && (a.attempt == j.attempt && Settled(j.status) ==> LatestAgrees(j, a))
  }

  predicate LatestAgrees(j: Job, a: Attempt) {
    && (a.status == j.status || (a.status == Stopped && j.status == NeedsReview))
    && j.started == Some(a.started) && j.finished == Some(a.finished)
    && a.result == j.result && a.error == j.error
  }

  predicate HistoryOk(j: Job) {
    && (forall a | a in j.attempts :: AttemptOk(j, a))
    && (forall i, k | 0 <= i < k < |j.attempts| :: j.attempts[i].attempt < j.attempts[k].attempt)
  }

  predicate TimesOk(j: Job) {
    && j.revision > 0 && j.created <= j.updated
    && (j.started.Some? ==> j.created <= j.started.value <= j.updated)
    && (j.finished.Some? ==> j.created <= j.finished.value <= j.updated)
    && (j.started.Some? && j.finished.Some? ==> j.started.value <= j.finished.value)
  }

  predicate ShapeOk(j: Job) {
    match j.status
    case Queued => j.attempt < j.input.maxAttempts && j.started.None? && j.finished.None?
    case AwaitingApproval => j.attempt < j.input.maxAttempts && j.started.None? && j.finished.None?
    case Running => j.attempt > 0 && j.started.Some? && j.finished.None?
    case PendingDelegations => j.attempt > 0 && j.started.Some? && j.finished.None?
    case Completed => j.attempt > 0 && j.started.Some? && j.finished.Some?
    case Failed => j.attempt > 0 && j.started.Some? && j.finished.Some?
    case NeedsReview => j.attempt > 0 && j.started.Some? && j.finished.Some?
    case Cancelled => j.finished.Some?
    case Stopped => false
  }

  predicate Validate(j: Job) {
    BudgetOk(j) && HistoryOk(j) && TimesOk(j) && ShapeOk(j)
  }

  // ---- What the operations promise beyond that check ----

  function Claims(marks: seq<Mark>): nat {
    if marks == [] then 0 else Claims(marks[..|marks| - 1]) + (if marks[|marks| - 1] == Claimed then 1 else 0)
  }

  /** The last approval came after the last retry. */
  predicate ApprovedSinceRetry(marks: seq<Mark>) {
    marks != [] &&
    match marks[|marks| - 1]
    case Approved => true
    case Claimed => ApprovedSinceRetry(marks[..|marks| - 1])
    case _ => false
  }

  predicate ClaimedSinceRetry(marks: seq<Mark>) {
    marks != [] &&
    match marks[|marks| - 1]
    case Claimed => true
    case Approved => ClaimedSinceRetry(marks[..|marks| - 1])
    case _ => false
  }

  /** Between two claims of a job its owner asked for a retry. */
  predicate RetriedBetweenClaims(marks: seq<Mark>) {
    forall k | 0 <= k < |marks| && marks[k] == Claimed :: !ClaimedSinceRetry(marks[..k])
  }

  predicate HasStopped(j: Job, attempt: nat) {
    exists a :: a in j.attempts && a.attempt == attempt && a.status == Stopped
  }

  predicate HasEntry(j: Job, attempt: nat) {
    exists a :: a in j.attempts && a.attempt == attempt
  }

  /** Attempts are counted by claims, approvals do not outlive a retry, and a stop request is never forgotten. */
  predicate Sound(j: Job) {
    && j.attempt == Claims(j.marks)
    && (j.approved.Some? <==> ApprovedSinceRetry(j.marks))
    && (j.stop.Some? ==> j.status == Running || (j.status == NeedsReview && HasStopped(j, j.attempt)))
    && (Settled(j.status) ==> HasEntry(j, j.attempt))
    && (Active(j.status) || j.status == AwaitingApproval ==> j.result.None?)
    && j.status != PendingDelegations
    && RetriedBetweenClaims(j.marks)
    && (j.status == Queued || j.status == AwaitingApproval ==> !ClaimedSinceRetry(j.marks))
  }

  predicate Good(j: Job) { Validate(j) && Sound(j) }

  /** The history only grows; an entry changes by being reviewed. */
  predicate HistoryGrows(old': seq<Attempt>, new': seq<Attempt>) {
    && |old'| <= |new'|
    && forall k | 0 <= k < |old'| :: new'[k] == old'[k].(review := new'[k].review)
  }

  /** What no operation takes back. */
  predicate Later(j: Job, j': Job) {
    && j'.agent == j.agent && j'.key == j.key && j'.input == j.input && j'.created == j.created
    && j.attempt <= j'.attempt && j.revision <= j'.revision && j.updated <= j'.updated
    && HistoryGrows(j.attempts, j'.attempts)
    && (j.status == Running && j.stop.Some? ==>
          (j'.status == Running && j'.attempt == j.attempt && j'.stop.Some?) || HasStopped(j', j.attempt))
  }

  // ---- Operations on one record ----

  function Max(a: nat, b: nat): nat { if a < b then b else a }

  /** The next revision; a clock that steps back does not move the record back. */
  function Advance(j: Job, now: nat): Job {
    j.(revision := if j.revision < MAX_REVISION then j.revision + 1 else j.revision, updated := Max(j.updated, now))
  }

  /** Appends the settled attempt to the history unless it is there. */
  function Preserve(j: Job): Job {
    if Settled(j.status) && !HasEntry(j, j.attempt) && j.started.Some? && j.finished.Some?
    then j.(attempts := j.attempts + [Attempt(j.attempt, j.status, j.started.value, j.finished.value, j.result, j.error,
                                              j.result.Some? && |j.result.value| >= 65533, None)])
    else j
  }

  function Finished(j: Job, now: nat): Job {
    var a := Advance(j, now);
    a.(finished := Some(a.updated))
  }

  function MarkForReview(j: Job, error: string, now: nat): Job {
    Preserve(Finished(j.(status := NeedsReview, error := Some(error)), now))
  }

  function RecordStop(j: Job, now: nat): Job {
    var s := Finished(j.(status := NeedsReview, error := Some(STOPPED_ERROR)), now);
    if s.started.Some? && !HasEntry(s, s.attempt)
    then s.(attempts := s.attempts + [Attempt(s.attempt, Stopped, s.started.value, s.updated, s.result, s.error, false, None)])
    else s
  }

  function SettleUncertain(j: Job, error: string, now: nat): Job {
    if j.stop.Some? then RecordStop(j, now) else MarkForReview(j, error, now)
  }

  function New(agent: string, key: string, input: Input, now: nat): Job {
    Job(agent, key, input, if input.requiresApproval then AwaitingApproval else Queued, 1, 0, now, now, None, None,
        None, None, None, [], None, [Created])
  }

  function Cancel(j: Job, now: nat): Result<Job> {
    if j.status != Queued && j.status != AwaitingApproval then Err
    else Ok(Finished(j.(status := Cancelled), now))
  }

  predicate ChangesWereRequested(j: Job) {
    && j.status == Completed && j.attempts != []
    && var a := j.attempts[|j.attempts| - 1];
       a.review.Some? && a.review.value.decision == ChangesRequested
  }

  function Retry(j: Job, acknowledged: bool, now: nat): Result<Job> {
    var p := Preserve(j);
    if (!ChangesWereRequested(p) && p.status != Failed && p.status != NeedsReview) || p.attempt >= p.input.maxAttempts then Err
    else if p.status == NeedsReview && !acknowledged then Err
    else
      var a := Advance(p.(status := if p.input.requiresApproval then AwaitingApproval else Queued, approved := None, stop := None), now);
      Ok(a.(started := None, finished := None, result := None, error := None, marks := a.marks + [Retried]))
  }

  function Approve(j: Job, now: nat): Result<Job> {
    if j.status != AwaitingApproval then Err
    else
      var a := Advance(j.(status := Queued), now);
      Ok(a.(approved := Some(a.updated), marks := a.marks + [Approved]))
  }

  function ReviewOutput(j: Job, decision: Decision, now: nat): Result<Job> {
    if j.status != Completed then Err
    else
      var p := Preserve(j);
      if p.attempts == [] then Err
      else
        var last := p.attempts[|p.attempts| - 1];
        if last.attempt != p.attempt || last.review.Some? then Err
        else
          var a := Advance(p, now);
          Ok(a.(attempts := a.attempts[..|a.attempts| - 1] + [last.(review := Some(OutputReview(decision, a.updated)))]))
  }

  function Claim(j: Job, now: nat): Result<Job> {
    if j.status != Queued || j.attempt >= j.input.maxAttempts || (j.input.requiresApproval && j.approved.None?) then Err
    else
      var a := Advance(j.(status := Running, attempt := j.attempt + 1), now);
      Ok(a.(started := Some(a.updated), marks := a.marks + [Claimed]))
  }

  /** The stop marker of a running attempt; the revision stays. */
  function RequestStop(j: Job, attempt: nat, now: nat): Job {
    if j.status == Running && j.attempt == attempt && j.stop.None? then j.(stop := Some(now)) else j
  }

  /** How a run ended, as its commit sees it. */
  datatype Outcome = Outcome(success: bool, cancelled: bool, uncertain: bool,
                             result: Option<string>, error: Option<string>, truncated: bool)

  const UNPROVEN_EFFECT: string := "A native effect has no proven terminal receipt; inspect effects before retrying"

  function Preview(s: string): string {
    if |s| <= 65536 then s else s[..65536]
  }

  function Shown(s: Option<string>): Option<string> {
    if s.Some? then Some(Preview(s.value)) else None
  }

  /** The commit of a run against the claim it was started for. */
  function Commit(j: Job, revision: nat, o: Outcome, now: nat): Result<Job> {
    if j.status != Running || j.revision != revision then Err
    else if j.stop.Some? || o.cancelled then Ok(RecordStop(j, now))
    else if o.uncertain then Ok(SettleUncertain(j, UNPROVEN_EFFECT, now))
    else
      var f := Preserve(Finished(j.(status := if o.success then Completed else Failed,
                                    result := Shown(o.result), error := Shown(o.error)), now));
      if f.attempts == [] then Ok(f)
      else
        var last := f.attempts[|f.attempts| - 1];
        Ok(f.(attempts := f.attempts[..|f.attempts| - 1] + [last.(truncated := o.result.Some? && (|o.result.value| > 65536 || o.truncated))]))
  }

  // ---- Every operation keeps a good record good and takes nothing back ----

  lemma {:induction false} FewAttempts(attempts: seq<Attempt>, most: nat)
    requires forall i, k | 0 <= i < k < |attempts| :: attempts[i].attempt < attempts[k].attempt
    requires forall a | a in attempts :: 1 <= a.attempt <= most
    ensures |attempts| <= most
  {
    if attempts != [] {
      var last := attempts[|attempts| - 1];
      assert last in attempts;
      FewAttempts(attempts[..|attempts| - 1], last.attempt - 1);
    }
  }

  /** A history that is not added to stays valid as the record moves on. */
  lemma HistoryKept(j: Job, j': Job)
    requires HistoryOk(j) && j'.attempts == j.attempts && j'.created == j.created
    requires j.updated <= j'.updated && j.attempt <= j'.attempt
    requires !Settled(j'.status) && (Executing(j'.status) ==> !HasEntry(j', j'.attempt))
    ensures HistoryOk(j') && |j'.attempts| <= j'.attempt
  {
    forall a | a in j'.attempts
      ensures AttemptOk(j', a)
    {
      assert AttemptOk(j, a);
    }
    FewAttempts(j'.attempts, j'.attempt);
  }

  /** The attempt that was running enters the history when it ends. */
  lemma HistoryAppended(j: Job, j': Job, a: Attempt)
    requires HistoryOk(j) && !HasEntry(j, j.attempt)
    requires j'.attempts == j.attempts + [a] && j'.created == j.created && j.updated <= j'.updated
    requires a.attempt == j'.attempt == j.attempt && AttemptOk(j', a) && !Executing(j'.status)
    ensures HistoryOk(j') && |j'.attempts| <= j'.attempt && HistoryGrows(j.attempts, j'.attempts)
    ensures HasEntry(j', j'.attempt) && (a.status == Stopped ==> HasStopped(j', j'.attempt))
  {
    forall b | b in j'.attempts
      ensures AttemptOk(j', b)
    {
      if b in j.attempts {
        assert AttemptOk(j, b) && b.attempt != j.attempt;
      }
    }
    forall i, k | 0 <= i < k < |j'.attempts|
      ensures j'.attempts[i].attempt < j'.attempts[k].attempt
    {
      if k == |j.attempts| {
        assert j'.attempts[i] in j.attempts;
        assert AttemptOk(j, j'.attempts[i]) && j'.attempts[i].attempt != j.attempt;
      }
    }
    assert forall b | b in j'.attempts :: AttemptOk(j', b);
    FewAttempts(j'.attempts, j'.attempt);
    assert a in j'.attempts;
  }

  lemma NewIsGood(agent: string, key: string, input: Input, now: nat)
    requires 1 <= input.maxAttempts <= 3
    ensures Good(New(agent, key, input, now))
  {
    assert Claims([Created]) == Claims([Created][..0]);
  }

  lemma MarkAdded(marks: seq<Mark>, m: Mark)
    ensures Claims(marks + [m]) == Claims(marks) + (if m == Claimed then 1 else 0)
    ensures ApprovedSinceRetry(marks + [m]) == (m == Approved || (m == Claimed && ApprovedSinceRetry(marks)))
    ensures ClaimedSinceRetry(marks + [m]) == (m == Claimed || (m == Approved && ClaimedSinceRetry(marks)))
    ensures RetriedBetweenClaims(marks + [m]) == (RetriedBetweenClaims(marks) && (m == Claimed ==> !ClaimedSinceRetry(marks)))
  {
    assert (marks + [m])[..|marks|] == marks;
    assert forall k | 0 <= k < |marks| :: (marks + [m])[..k] == marks[..k] && (marks + [m])[k] == marks[k];
  }

  lemma CancelKeeps(j: Job, now: nat)
    requires Good(j) && Cancel(j, now).Ok?
    ensures Good(Cancel(j, now).value) && Later(j, Cancel(j, now).value)
  {
    HistoryKept(j, Cancel(j, now).value);
  }

  lemma ApproveKeeps(j: Job, now: nat)
    requires Good(j) && Approve(j, now).Ok?
    ensures Good(Approve(j, now).value) && Later(j, Approve(j, now).value)
  {
    HistoryKept(j, Approve(j, now).value);
    MarkAdded(j.marks, Approved);
  }

  lemma ClaimKeeps(j: Job, now: nat)
    requires Good(j) && Claim(j, now).Ok?
    ensures Good(Claim(j, now).value) && Later(j, Claim(j, now).value)
  {
    assert forall a | a in j.attempts :: AttemptOk(j, a);
    HistoryKept(j, Claim(j, now).value);
    MarkAdded(j.marks, Claimed);
  }

  lemma RequestStopKeeps(j: Job, attempt: nat, now: nat)
    requires Good(j)
    ensures Good(RequestStop(j, attempt, now)) && Later(j, RequestStop(j, attempt, now))
  {
    assert forall a | a in j.attempts :: AttemptOk(j, a);
    if RequestStop(j, attempt, now) != j { HistoryKept(j, RequestStop(j, attempt, now)); }
  }

  lemma RetryKeeps(j: Job, acknowledged: bool, now: nat)
    requires Good(j) && Retry(j, acknowledged, now).Ok?
    ensures Good(Retry(j, acknowledged, now).value) && Later(j, Retry(j, acknowledged, now).value)
  {
    HistoryKept(j, Retry(j, acknowledged, now).value);
    MarkAdded(j.marks, Retried);
  }

  lemma RecordStopKeeps(j: Job, now: nat)
    requires Good(j) && j.status == Running
    ensures Good(RecordStop(j, now)) && Later(j, RecordStop(j, now)) && HasStopped(RecordStop(j, now), j.attempt)
    ensures RecordStop(j, now).status == NeedsReview && RecordStop(j, now).attempt == j.attempt
  {
    assert forall a | a in j.attempts :: AttemptOk(j, a);
    var s := Finished(j.(status := NeedsReview, error := Some(STOPPED_ERROR)), now);
    assert !HasEntry(s, s.attempt);
    HistoryAppended(j, RecordStop(j, now), Attempt(s.attempt, Stopped, s.started.value, s.updated, s.result, s.error, false, None));
  }

  /** Ending a running attempt with a result that its history entry repeats. */
  lemma EndKeeps(j: Job, j': Job, a: Attempt)
    requires Good(j) && j.status == Running && j.stop.None?
    requires Settled(j'.status)
    requires j' == j.(status := j'.status, revision := j'.revision, updated := j'.updated, finished := Some(j'.updated),
                      result := j'.result, error := j'.error, attempts := j.attempts + [a])
    requires j.revision <= j'.revision && j.updated <= j'.updated
    requires a == Attempt(j.attempt, j'.status, j.started.value, j'.updated, j'.result, j'.error, a.truncated, None)
    requires a.truncated ==> a.result.Some?
    ensures Good(j') && Later(j, j')
  {
    assert forall b | b in j.attempts :: AttemptOk(j, b);
    HistoryAppended(j, j', a);
  }

  lemma MarkForReviewKeeps(j: Job, error: string, now: nat)
    requires Good(j) && j.status == Running && j.stop.None?
    ensures Good(MarkForReview(j, error, now)) && Later(j, MarkForReview(j, error, now))
  {
    assert forall a | a in j.attempts :: AttemptOk(j, a);
    var f := Finished(j.(status := NeedsReview, error := Some(error)), now);
    assert !HasEntry(f, f.attempt);
    var j' := MarkForReview(j, error, now);
    EndKeeps(j, j', j'.attempts[|j.attempts|]);
  }

  /** Settling without knowing how the run ended: the job needs review, recorded as stopped exactly when a stop was requested. */
  lemma SettleUncertainKeeps(j: Job, error: string, now: nat)
    requires Good(j) && j.status == Running
    ensures Good(SettleUncertain(j, error, now)) && Later(j, SettleUncertain(j, error, now))
    ensures SettleUncertain(j, error, now).status == NeedsReview && SettleUncertain(j, error, now).attempt == j.attempt
    ensures HasStopped(SettleUncertain(j, error, now), j.attempt) <==> j.stop.Some?
  {
    if j.stop.Some? {
      RecordStopKeeps(j, now);
    } else {
      MarkForReviewKeeps(j, error, now);
      assert forall a | a in j.attempts :: AttemptOk(j, a);
    }
  }

  /** A commit settles the attempt: completed or failed as the run says, unless it was stopped or is uncertain. */
  lemma CommitKeeps(j: Job, revision: nat, o: Outcome, now: nat)
    requires Good(j) && Commit(j, revision, o, now).Ok?
    ensures Good(Commit(j, revision, o, now).value) && Later(j, Commit(j, revision, o, now).value)
    ensures Commit(j, revision, o, now).value.attempt == j.attempt
    ensures Commit(j, revision, o, now).value.status ==
              if j.stop.Some? || o.cancelled || o.uncertain then NeedsReview else if o.success then Completed else Failed
    ensures HasStopped(Commit(j, revision, o, now).value, j.attempt) <==> j.stop.Some? || o.cancelled
  {
    if j.stop.Some? || o.cancelled {
      RecordStopKeeps(j, now);
    } else if o.uncertain {
      SettleUncertainKeeps(j, UNPROVEN_EFFECT, now);
    } else {
      CommitResultKeeps(j, revision, o, now);
      OneEntry(Commit(j, revision, o, now).value);
    }
  }

  lemma NoEntryYet(j: Job)
    requires HistoryOk(j) && Executing(j.status)
    ensures !HasEntry(j, j.attempt)
  {
    assert forall a | a in j.attempts :: AttemptOk(j, a);
  }

  lemma OneEntry(j: Job)
    requires HistoryOk(j) && (j.status == Completed || j.status == Failed)
    ensures !HasStopped(j, j.attempt)
  {
    assert forall a | a in j.attempts :: AttemptOk(j, a);
  }

  lemma CommitResultKeeps(j: Job, revision: nat, o: Outcome, now: nat)
    requires Good(j) && j.status == Running && j.revision == revision && j.stop.None? && !o.cancelled && !o.uncertain
    ensures Commit(j, revision, o, now).Ok?
    ensures Good(Commit(j, revision, o, now).value) && Later(j, Commit(j, revision, o, now).value)
    ensures Commit(j, revision, o, now).value.attempts != []
  {
    NoEntryYet(j);
    var f := Finished(j.(status := if o.success then Completed else Failed,
                         result := Shown(o.result), error := Shown(o.error)), now);
    assert !HasEntry(f, f.attempt);
    var p := Preserve(f);
    assert p.attempts[..|p.attempts| - 1] == j.attempts;
    var j' := Commit(j, revision, o, now).value;
    EndKeeps(j, j', j'.attempts[|j.attempts|]);
  }

  /** A review changes the newest entry and nothing else of the history. */
  lemma HistoryReviewed(j: Job, j': Job, review: OutputReview)
    requires HistoryOk(j) && j.attempts != [] && j.status == Completed && HasEntry(j, j.attempt)
    requires j' == j.(revision := j'.revision, updated := j'.updated, attempts := j'.attempts)
    requires j.updated <= j'.updated && review.reviewedAt == j'.updated
    requires var n := |j.attempts| - 1;
      j'.attempts == j.attempts[..n] + [j.attempts[n].(review := Some(review))] && j.attempts[n].attempt == j.attempt
    ensures HistoryOk(j') && HistoryGrows(j.attempts, j'.attempts) && HasEntry(j', j'.attempt)
  {
    var n := |j.attempts| - 1;
    forall k | 0 <= k <= n
      ensures j'.attempts[k] == j.attempts[k].(review := j'.attempts[k].review) && AttemptOk(j', j'.attempts[k])
    {
      assert j.attempts[k] in j.attempts;
      assert AttemptOk(j, j.attempts[k]);
    }
    assert j'.attempts[n] in j'.attempts;
  }

  lemma ReviewOutputKeeps(j: Job, decision: Decision, now: nat)
    requires Good(j) && ReviewOutput(j, decision, now).Ok?
    ensures Good(ReviewOutput(j, decision, now).value) && Later(j, ReviewOutput(j, decision, now).value)
  {
    var j' := ReviewOutput(j, decision, now).value;
    HistoryReviewed(j, j', OutputReview(decision, j'.updated));
  }

  // ---- When each operation is accepted, and what it writes ----

  /** Which states count against the limit of active jobs, which are in a worker's hands, and which have an outcome. */
  lemma StatusGroups(s: Status)
    ensures Active(s) <==> s == Queued || s == Running || s == PendingDelegations
    ensures Executing(s) <==> s == Running || s == PendingDelegations
    ensures Settled(s) <==> s == Completed || s == Failed || s == NeedsReview
  {
  }

  /** The record moves on by one revision, and its time to the clock's unless that is behind. */
  ghost predicate MovesOn(j: Job, j': Job, now: nat) {
    && j'.revision == (if j.revision < MAX_REVISION then j.revision + 1 else j.revision)
    && j.updated <= j'.updated && now <= j'.updated && (j'.updated == now || j'.updated == j.updated)
  }

  /** A new job waits for approval exactly when it needs one. */
  lemma NewWrites(agent: string, key: string, input: Input, now: nat)
    ensures var j := New(agent, key, input, now);
      && j.agent == agent && j.key == key && j.input == input && j.created == j.updated == now
      && j.status == (if input.requiresApproval then AwaitingApproval else Queued)
      && j.revision == 1 && j.attempt == 0 && j.attempts == [] && j.approved.None? && j.stop.None?
      && j.started.None? && j.finished.None? && j.result.None? && j.error.None?
  {
  }

  /** Only a queued job or a proposal can be cancelled, and it is finished then. */
  lemma CancelWrites(j: Job, now: nat)
    ensures Cancel(j, now).Ok? <==> j.status == Queued || j.status == AwaitingApproval
    ensures Cancel(j, now).Ok? ==>
      var j' := Cancel(j, now).value;
      && MovesOn(j, j', now) && j'.status == Cancelled && j'.finished == Some(j'.updated)
      && j' == j.(status := j'.status, revision := j'.revision, updated := j'.updated, finished := j'.finished)
  {
  }

  /** Only a proposal can be approved, and it is queued then with the time of the approval. */
  lemma ApproveWrites(j: Job, now: nat)
    ensures Approve(j, now).Ok? <==> j.status == AwaitingApproval
    ensures Approve(j, now).Ok? ==>
      var j' := Approve(j, now).value;
      && MovesOn(j, j', now) && j'.status == Queued && j'.approved == Some(j'.updated) && j'.marks == j.marks + [Approved]
      && j' == j.(status := j'.status, revision := j'.revision, updated := j'.updated, approved := j'.approved, marks := j'.marks)
  {
  }

  /** A queued job is claimed below its attempt limit and with the approval it needs. */
  lemma ClaimWrites(j: Job, now: nat)
    ensures Claim(j, now).Ok? <==>
      j.status == Queued && j.attempt < j.input.maxAttempts && (j.input.requiresApproval ==> j.approved.Some?)
    ensures Claim(j, now).Ok? ==>
      var j' := Claim(j, now).value;
      && MovesOn(j, j', now) && j'.status == Running && j'.attempt == j.attempt + 1 && j'.started == Some(j'.updated)
      && j'.marks == j.marks + [Claimed]
      && j' == j.(status := j'.status, revision := j'.revision, updated := j'.updated, attempt := j'.attempt, started := j'.started, marks := j'.marks)
  {
  }

  /** The newest output was reviewed and changes were asked for. */
  ghost predicate SentBack(j: Job) {
    && j.status == Completed && j.attempts != []
    && var newest := j.attempts[|j.attempts| - 1];
       newest.review.Some? && newest.review.value.decision == ChangesRequested
  }

  /**
   A retry is accepted below the attempt limit for a failed job, an uncertain one whose risk is acknowledged, or one sent
   back; it asks for a new approval and forgets the last attempt's outcome, stop request and times, not its history.
   */
  lemma RetryWrites(j: Job, acknowledged: bool, now: nat)
    requires Good(j)
    ensures Retry(j, acknowledged, now).Ok? <==>
      j.attempt < j.input.maxAttempts && (j.status == Failed || (j.status == NeedsReview && acknowledged) || SentBack(j))
    ensures Retry(j, acknowledged, now).Ok? ==>
      var j' := Retry(j, acknowledged, now).value;
      && MovesOn(j, j', now) && j'.status == (if j.input.requiresApproval then AwaitingApproval else Queued)
      && j'.approved.None? && j'.stop.None? && j'.started.None? && j'.finished.None? && j'.result.None? && j'.error.None?
      && j'.attempts == j.attempts && j'.attempt == j.attempt && j'.input == j.input && j'.marks == j.marks + [Retried]
  {
  }

  /** The newest output of a completed job is reviewed once; the decision on record is the one given. */
  lemma ReviewOutputWrites(j: Job, decision: Decision, now: nat)
    requires Good(j)
    ensures ReviewOutput(j, decision, now).Ok? <==>
      && j.status == Completed && j.attempts != []
      && j.attempts[|j.attempts| - 1].attempt == j.attempt && j.attempts[|j.attempts| - 1].review.None?
    ensures ReviewOutput(j, decision, now).Ok? ==>
      var j', n := ReviewOutput(j, decision, now).value, |j.attempts| - 1;
      && MovesOn(j, j', now) && |j'.attempts| == |j.attempts| && j'.attempts[..n] == j.attempts[..n]
      && j'.attempts[n] == j.attempts[n].(review := Some(OutputReview(decision, j'.updated)))
      && j' == j.(revision := j'.revision, updated := j'.updated, attempts := j'.attempts)
  {
  }

  /** The stop marker goes on exactly the attempt that is running, once. */
  lemma RequestStopWrites(j: Job, attempt: nat, now: nat)
    ensures var j' := RequestStop(j, attempt, now);
      if j.status == Running && j.attempt == attempt && j.stop.None? then j' == j.(stop := Some(now)) else j' == j
  {
  }

  /** A text as a record shows it: whole if it is short, otherwise its first 65536 characters. */
  ghost predicate ShownAs(given: Option<string>, shown: Option<string>) {
    && (given.None? <==> shown.None?)
    && (given.Some? ==>
          && shown.value <= given.value
          && |shown.value| == (if |given.value| <= 65536 then |given.value| else 65536))
  }

  /** A running attempt has ended: the record and a new history entry say the same. */
  ghost predicate Ended(j: Job, j': Job, entry: Status, now: nat) {
    && MovesOn(j, j', now) && j'.finished == Some(j'.updated) && j.started.Some? && j'.started == j.started
    && j'.attempt == j.attempt && j'.stop == j.stop && j'.approved == j.approved && j'.marks == j.marks
    && |j'.attempts| == |j.attempts| + 1 && j'.attempts[..|j.attempts|] == j.attempts
    && var newest := j'.attempts[|j.attempts|];
       && newest.attempt == j.attempt && newest.status == entry && newest.started == j.started.value
       && newest.finished == j'.updated && newest.result == j'.result && newest.error == j'.error && newest.review.None?
  }

  /** What a settled attempt of unknown outcome says: the reason given, or that its owner stopped it. */
  lemma SettleUncertainWrites(j: Job, error: string, now: nat)
    requires Good(j) && j.status == Running
    ensures var j' := SettleUncertain(j, error, now);
      && j'.status == NeedsReview && j'.result == j.result
      && j'.error == Some(if j.stop.Some? then STOPPED_ERROR else error)
      && Ended(j, j', if j.stop.Some? then Stopped else NeedsReview, now)
  {
    NoEntryYet(j);
    var f := Finished(j.(status := NeedsReview, error := Some(if j.stop.Some? then STOPPED_ERROR else error)), now);
    assert !HasEntry(f, f.attempt);
  }

  lemma RecordStopWrites(j: Job, now: nat)
    requires Good(j) && j.status == Running
    ensures var j' := RecordStop(j, now);
      j'.status == NeedsReview && j'.result == j.result && j'.error == Some(STOPPED_ERROR) && Ended(j, j', Stopped, now)
  {
    NoEntryYet(j);
    var f := Finished(j.(status := NeedsReview, error := Some(STOPPED_ERROR)), now);
    assert !HasEntry(f, f.attempt);
  }

  /** What the commit of a run makes of its claim. */
  ghost predicate CommittedAs(j: Job, j': Job, o: Outcome, now: nat) {
    if j.stop.Some? || o.cancelled then
      j'.status == NeedsReview && j'.result == j.result && j'.error == Some(STOPPED_ERROR) && Ended(j, j', Stopped, now)
    else if o.uncertain then
      j'.status == NeedsReview && j'.result == j.result && j'.error == Some(UNPROVEN_EFFECT) && Ended(j, j', NeedsReview, now)
    else
      && j'.status == (if o.success then Completed else Failed)
      && ShownAs(o.result, j'.result) && ShownAs(o.error, j'.error) && Ended(j, j', j'.status, now)
      && (j'.attempts[|j.attempts|].truncated <==> o.result.Some? && (|o.result.value| > 65536 || o.truncated))
  }

  /** A commit is accepted exactly against the running claim it was made for, and records the run's own outcome. */
  lemma CommitWrites(j: Job, revision: nat, o: Outcome, now: nat)
    requires Good(j)
    ensures Commit(j, revision, o, now).Ok? <==> j.status == Running && j.revision == revision
    ensures Commit(j, revision, o, now).Ok? ==> CommittedAs(j, Commit(j, revision, o, now).value, o, now)
  {
    if j.status == Running && j.revision == revision {
      if j.stop.Some? || o.cancelled {
        RecordStopWrites(j, now);
      } else if o.uncertain {
        SettleUncertainWrites(j, UNPROVEN_EFFECT, now);
      } else {
        CommitResultWrites(j, revision, o, now);
      }
    }
  }

  lemma CommitResultWrites(j: Job, revision: nat, o: Outcome, now: nat)
    requires Good(j) && j.status == Running && j.revision == revision && j.stop.None? && !o.cancelled && !o.uncertain
    ensures Commit(j, revision, o, now).Ok? && CommittedAs(j, Commit(j, revision, o, now).value, o, now)
  {
    NoEntryYet(j);
    var f := Finished(j.(status := if o.success then Completed else Failed,
                         result := Shown(o.result), error := Shown(o.error)), now);
    assert !HasEntry(f, f.attempt);
    var p := Preserve(f);
    assert p.attempts[..|p.attempts| - 1] == j.attempts;
  }
}
