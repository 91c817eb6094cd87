/** One automation row, and what firing or toggling does to it. */
module Automations {
  import opened Wrappers
  import opened Schedule

  type AutomationId = nat

  const MAX_CONSECUTIVE_FAILURES: nat := 3
  const SCHEDULER_BATCH_SIZE: nat := 20
  const ERROR_PREVIEW_CHARS: nat := 500

  datatype Status = Active | Paused | Completed | Failed

  datatype Row = Row(
    cadence: Cadence,
    enabled: bool,
    status: Status,
    next: Option<int>,
    failures: nat,
    lastRun: Option<int>,
    lastError: Option<string>)

  datatype RunStatus = RunSucceeded | RunFailed

  datatype RunRow = RunRow(status: RunStatus, finishedAt: int, output: Option<string>, error: Option<string>)

  /** The slot of a run: the automation it belongs to and the instant it was due. */
  datatype Claim = Claim(id: AutomationId, slot: int)

  /** What rendering the message of an automation produces; a failure is an error text. */
  datatype Outcome = Rendered(output: string) | RenderFailed(error: string)

  function Truncate(s: string, n: nat): string {
    if |s| <= n then s else s[..n]
  }

  function NewRow(cadence: Cadence, runAt: int): Row {
    Row(cadence, true, Active, Some(runAt), 0, None, None)
  }

  predicate Due(row: Row, now: int) {
    row.enabled && row.status.Active? && row.next.Some? && row.next.value <= now
  }

  function SlotOf(row: Row, now: int): int {
    if row.next.Some? then row.next.value else now
  }

  /** The columns after one claimed firing: counters, then the move to the next slot. */
  function Fired(row: Row, now: int, outcome: Outcome): Row {
    var counted := match outcome
      case Rendered(_) => row.(failures := 0, lastError := None)
      case RenderFailed(error) =>
        var failed := row.(failures := row.failures + 1, lastError := Some(Truncate(error, ERROR_PREVIEW_CHARS)));
        if failed.failures >= MAX_CONSECUTIVE_FAILURES then failed.(status := Failed, enabled := false) else failed;
    var next := NextOccurrence(row.cadence, now, SlotOf(row, now));
    var moved := counted.(lastRun := Some(now), next := next);
    if next.None? && moved.status.Active? then moved.(status := Completed, enabled := false) else moved
  }

  function FinishedRun(now: int, outcome: Outcome): RunRow {
    match outcome
    case Rendered(output) => RunRow(RunSucceeded, now, Some(output), None)
    case RenderFailed(error) => RunRow(RunFailed, now, None, Some(Truncate(error, ERROR_PREVIEW_CHARS)))
  }

  /** `text` is the error, or its first 500 characters if it is longer. */
  predicate Clipped(text: string, error: string) {
    text <= error && |text| == if |error| < 500 then |error| else 500
  }

  /** The run row of a firing that ended at `now`: it succeeded with the rendered text and no error, or it
      failed with the clipped error and no text. */
  predicate RecordsFiring(run: RunRow, now: int, outcome: Outcome) {
    && run.finishedAt == now
    && match outcome
       case Rendered(output) => run.status.RunSucceeded? && run.output == Some(output) && run.error.None?
       case RenderFailed(error) =>
         run.status.RunFailed? && run.output.None? && run.error.Some? && Clipped(run.error.value, error)
  }

  /** The columns of a due row after it fired: whether it goes on, what it counts, and when it is due next. */
  predicate MovedOn(row: Row, after: Row, now: int, outcome: Outcome)
    requires row.next.Some?
  {
    && after.cadence == row.cadence && after.lastRun == Some(now)
    && after.next == NextOccurrence(row.cadence, now, row.next.value)
    && match outcome
       case Rendered(_) => after.failures == 0 && after.lastError.None? && GoesOn(after, !row.cadence.Once?, Completed)
       case RenderFailed(error) =>
         && after.failures == row.failures + 1
         && after.lastError.Some? && Clipped(after.lastError.value, error)
         && if after.failures >= 3 then GoesOn(after, false, Failed) else GoesOn(after, !row.cadence.Once?, Completed)
  }

  predicate GoesOn(row: Row, goesOn: bool, otherwise: Status) {
    row.enabled == goesOn && row.status == if goesOn then Active else otherwise
  }

  /** A firing is recorded as it ended, and the row moves on accordingly. */
  lemma {:induction false} FiringIsRecorded(row: Row, now: int, outcome: Outcome)
    requires Due(row, now)
    ensures RecordsFiring(FinishedRun(now, outcome), now, outcome)
    ensures MovedOn(row, Fired(row, now, outcome), now, outcome)
  {
    if outcome.RenderFailed? {
      var text := Truncate(outcome.error, ERROR_PREVIEW_CHARS);
      assert Clipped(text, outcome.error);
    }
  }

  /** The columns after a pause or a resume; resuming moves a missed slot to the next real one. */
  function Toggled(row: Row, enabled: bool, now: int): Row {
    var switched := row.(enabled := enabled, status := if enabled then Active else Paused);
    if !enabled then switched
    else
      var reset := switched.(failures := 0, lastError := None);
      if reset.next.Some? && reset.next.value <= now then
        var next := NextOccurrence(row.cadence, now, reset.next.value);
        reset.(next := next, status := if next.None? then Completed else Active)
      else reset
  }

  /** `batch` is an answer of the due-list query: the earliest due rows, in order, at most `limit`. */
  ghost predicate IsDueBatch(rows: map<AutomationId, Row>, now: int, limit: nat, batch: seq<AutomationId>) {
    && |batch| <= limit
    && (forall i :: 0 <= i < |batch| ==> batch[i] in rows && Due(rows[batch[i]], now))
    && (forall i, j :: 0 <= i < j < |batch| ==>
          batch[i] != batch[j] && rows[batch[i]].next.value <= rows[batch[j]].next.value)
    && (forall id :: id in rows && Due(rows[id], now) && id !in batch ==>
          |batch| == limit && forall i :: 0 <= i < |batch| ==> rows[batch[i]].next.value <= rows[id].next.value)
  }

  /** A new automation is due from its run time on, and has counted nothing yet. */
  lemma {:induction false} NewRowIsDue(cadence: Cadence, runAt: int, now: int)
    ensures var row := NewRow(cadence, runAt);
            && (Due(row, now) <==> runAt <= now) && row.next == Some(runAt) && row.cadence == cadence
            && row.failures == 0 && row.lastRun.None? && row.lastError.None?
  {
  }

  /** A fired automation is no longer due at that instant, whatever happened while rendering. */
  lemma {:induction false} FiredIsNotDue(row: Row, now: int, outcome: Outcome)
    requires Due(row, now)
    ensures !Due(Fired(row, now, outcome), now)
    ensures Fired(row, now, outcome).next.Some? ==> Fired(row, now, outcome).next.value > now
  {
    if !row.cadence.Once? {
      NextOccurrenceIsLeastSlot(row.cadence, now, row.next.value);
    }
  }

  /** A pause only switches the automation off. A resume switches it on with a clean count; a slot still to
      come is kept, a missed one is replaced by the next real one, and a missed one-off is over. */
  lemma {:induction false} ToggleKeepsSlots(row: Row, enabled: bool, now: int)
    ensures var after := Toggled(row, enabled, now);
            && after.enabled == enabled && after.cadence == row.cadence && after.lastRun == row.lastRun
            && (!enabled ==> after == row.(enabled := false, status := Paused))
            && (enabled ==> after.failures == 0 && after.lastError.None?)
            && (enabled && (row.next.None? || now < row.next.value) ==> after.next == row.next && after.status.Active?)
            && (enabled && row.next.Some? && row.next.value <= now ==>
                  && after.next == NextOccurrence(row.cadence, now, row.next.value)
                  && (if row.cadence.Once? then after.next.None? && after.status.Completed? else after.status.Active?))
  {
  }

  /** Resuming never makes an automation fire at once: what it leaves is not due. */
  lemma {:induction false} ResumedIsNotDue(row: Row, now: int)
    ensures !Due(Toggled(row, true, now), now)
    ensures Toggled(row, true, now).status.Completed? <==>
              row.cadence.Once? && row.next.Some? && row.next.value <= now
  {
    if !row.cadence.Once? && row.next.Some? {
      NextOccurrenceIsLeastSlot(row.cadence, now, row.next.value);
    }
  }
}
