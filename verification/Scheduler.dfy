/** The scheduler as one process runs it: a table, one tick at a time, user requests between ticks. */
module Scheduler {
  import opened Wrappers
  import opened Schedule
  import opened Automations

  datatype Tables = Tables(rows: map<AutomationId, Row>, runs: map<Claim, RunRow>)

  /** What happens to each automation of a tick: how rendering ends, and whether the database fails. */
  datatype Weather = Weather(outcomes: AutomationId -> Outcome, faults: set<AutomationId>)

  predicate Claimable(db: Tables, id: AutomationId, now: int)
    requires id in db.rows
  {
    Claim(id, SlotOf(db.rows[id], now)) !in db.runs
  }

  /** One automation of a batch: fired, lost to an existing claim, or rolled back. */
  function RunOnce(db: Tables, id: AutomationId, now: int, outcome: Outcome): Tables
    requires id in db.rows
  {
    var row := db.rows[id];
    if !Claimable(db, id, now) then db
    else Tables(db.rows[id := Fired(row, now, outcome)],
                db.runs[Claim(id, SlotOf(row, now)) := FinishedRun(now, outcome)])
  }

  function RunBatch(db: Tables, batch: seq<AutomationId>, now: int, w: Weather): (t: Tables)
    requires forall id :: id in batch ==> id in db.rows
    ensures t.rows.Keys == db.rows.Keys
    decreases |batch|
  {
    if batch == [] then db
    else
      var (init, id) := (batch[..|batch| - 1], batch[|batch| - 1]);
      var before := RunBatch(db, init, now, w);
      if id in w.faults then before else RunOnce(before, id, now, w.outcomes(id))
  }

  function Executed(db: Tables, batch: seq<AutomationId>, now: int, w: Weather): seq<AutomationId>
    requires forall id :: id in batch ==> id in db.rows
    decreases |batch|
  {
    if batch == [] then []
    else
      var (init, id) := (batch[..|batch| - 1], batch[|batch| - 1]);
      var before := RunBatch(db, init, now, w);
      Executed(db, init, now, w) + (if id !in w.faults && Claimable(before, id, now) then [id] else [])
  }

  /** The earliest due rows are listed in order; `pending` are the due rows still to come. */
  ghost predicate Listed(rows: map<AutomationId, Row>, now: int, pending: set<AutomationId>, batch: seq<AutomationId>) {
    && (forall id :: id in pending ==> id in rows && Due(rows[id], now))
    && (forall i :: 0 <= i < |batch| ==> batch[i] in rows && Due(rows[batch[i]], now) && batch[i] !in pending)
    && (forall id :: id in rows && Due(rows[id], now) ==> id in batch || id in pending)
    && (forall i, j :: 0 <= i < j < |batch| ==>
          batch[i] != batch[j] && rows[batch[i]].next.value <= rows[batch[j]].next.value)
    && (forall i, id :: 0 <= i < |batch| && id in pending ==> rows[batch[i]].next.value <= rows[id].next.value)
  }

  lemma {:induction false} ListedOneMore(
    rows: map<AutomationId, Row>, now: int, pending: set<AutomationId>, batch: seq<AutomationId>, id: AutomationId)
    requires Listed(rows, now, pending, batch) && id in pending
    requires forall other :: other in pending ==> rows[id].next.value <= rows[other].next.value
    ensures Listed(rows, now, pending - {id}, batch + [id])
  {
  }

  /** The automation tables and the operations of the service and its repository on them. */
  class AutomationStore {
    var rows: map<AutomationId, Row>
    var runs: map<Claim, RunRow>

    constructor ()
      ensures rows == map[] && runs == map[]
    {
      rows, runs := map[], map[];
    }

    ghost function State(): Tables
      reads this
    {
      Tables(rows, runs)
    }

    /** The due row with the least next slot among `ids`. */
    method Earliest(ids: set<AutomationId>) returns (least: AutomationId)
      requires ids != {} && forall id :: id in ids ==> id in rows && rows[id].next.Some?
      ensures least in ids && forall id :: id in ids ==> rows[least].next.value <= rows[id].next.value
    {
      least :| least in ids;
      var rest := ids - {least};
      while rest != {}
        invariant rest < ids && least in ids - rest
        invariant forall id :: id in ids - rest ==> rows[least].next.value <= rows[id].next.value
        decreases rest
      {
        var id :| id in rest;
        rest := rest - {id};
        if rows[id].next.value < rows[least].next.value {
          least := id;
        }
      }
    }

    /** The due-list query. */
    method ListDue(now: int, limit: nat) returns (batch: seq<AutomationId>)
      ensures IsDueBatch(rows, now, limit, batch)
    {
      var due := set id | id in rows && Due(rows[id], now);
      var pending := due;
      batch := [];
      while pending != {} && |batch| < limit
        invariant |batch| <= limit && Listed(rows, now, pending, batch)
        decreases pending
      {
        var id := Earliest(pending);
        ListedOneMore(rows, now, pending, batch, id);
        batch := batch + [id];
        pending := pending - {id};
      }
    }

    /** Insert the run row unless the pair (automation, slot) is taken. */
    method ClaimRun(c: Claim, run: RunRow) returns (claimed: bool)
      modifies this`runs
      ensures claimed <==> c !in old(runs)
      ensures runs == if claimed then old(runs)[c := run] else old(runs)
    {
      claimed := c !in runs;
      if claimed {
        runs := runs[c := run];
      }
    }

    /** Fire one automation at its slot and move it on, whether or not rendering succeeds. */
    method FireOnce(id: AutomationId, now: int, outcome: Outcome) returns (fired: bool)
      requires id in rows
      modifies this
      ensures fired <==> old(Claimable(State(), id, now))
      ensures State() == RunOnce(old(State()), id, now, outcome)
    {
      var row := rows[id];
      var slot := if row.next.Some? then row.next.value else now;
      fired := ClaimRun(Claim(id, slot), FinishedRun(now, outcome));
      if !fired {
        return;
      }
      match outcome {
        case Rendered(_) =>
          row := row.(failures := 0, lastError := None);
        case RenderFailed(error) =>
          row := row.(failures := row.failures + 1, lastError := Some(Truncate(error, ERROR_PREVIEW_CHARS)));
          if row.failures >= MAX_CONSECUTIVE_FAILURES {
            row := row.(status := Failed, enabled := false);
          }
      }
      row := row.(lastRun := Some(now), next := NextOccurrence(row.cadence, now, slot));
      if row.next.None? && row.status.Active? {
        row := row.(status := Completed, enabled := false);
      }
      rows := rows[id := row];
    }

    /** One tick: every due automation of the batch once; a database failure undoes only its own item. */
    method RunDue(now: int, limit: nat, w: Weather) returns (executed: seq<AutomationId>, ghost batch: seq<AutomationId>)
      modifies this
      ensures IsDueBatch(old(rows), now, limit, batch)
      ensures State() == RunBatch(old(State()), batch, now, w)
      ensures executed == Executed(old(State()), batch, now, w)
    {
      var due := ListDue(now, limit);
      batch := due;
      executed := [];
      for i := 0 to |due|
        invariant State() == RunBatch(old(State()), due[..i], now, w)
        invariant executed == Executed(old(State()), due[..i], now, w)
      {
        assert due[..i + 1][..i] == due[..i];
        var (savedRows, savedRuns) := (rows, runs);
        var fired := FireOnce(due[i], now, w.outcomes(due[i]));
        if due[i] in w.faults {
          rows, runs := savedRows, savedRuns;
        } else if fired {
          executed := executed + [due[i]];
        }
      }
      assert due[..|due|] == due;
    }

    /** Pause or resume; a missing automation is refused and nothing changes. */
    method SetEnabled(id: AutomationId, enabled: bool, now: int) returns (found: bool)
      modifies this`rows
      ensures found <==> id in old(rows)
      ensures rows == if found then old(rows)[id := Toggled(old(rows)[id], enabled, now)] else old(rows)
    {
      found := id in rows;
      if !found {
        return;
      }
      var row := rows[id];
      row := row.(enabled := enabled, status := if enabled then Active else Paused);
      if enabled {
        row := row.(failures := 0, lastError := None);
        if row.next.Some? && row.next.value <= now {
          row := row.(next := NextOccurrence(row.cadence, now, row.next.value));
          if row.next.None? {
            row := row.(status := Completed);
          }
        }
      }
      rows := rows[id := row];
    }
  }

  // ---- One process: no claim is lost, backlogs drain, failing automations are parked ----

  datatype Event =
    | Created(id: AutomationId, cadence: Cadence, runAt: int)
    | Deleted(id: AutomationId)
    | Toggle(id: AutomationId, enabled: bool, now: int)
    | Ticked(now: int, batch: seq<AutomationId>, weather: Weather)

  /** What one automation goes through, in order: firings, with their slot, clock and outcome, and resumes. */
  datatype Mark = Firing(slot: int, at: int, outcome: Outcome) | Resumed

  datatype History = History(db: Tables, marks: map<AutomationId, seq<Mark>>)

  const Start: History := History(Tables(map[], map[]), map[])

  ghost predicate Possible(h: History, e: Event) {
    match e
    case Created(id, _, _) => id !in h.marks
    case Deleted(id) => id in h.db.rows
    case Toggle(id, _, _) => id in h.db.rows
    case Ticked(now, batch, _) => IsDueBatch(h.db.rows, now, SCHEDULER_BATCH_SIZE, batch)
  }

  function MarkOf(row: Row, now: int, outcome: Outcome): Mark {
    Firing(SlotOf(row, now), now, outcome)
  }

  predicate Fails(m: Mark) {
    m.Firing? && m.outcome.RenderFailed?
  }

  function After(h: History, e: Event): History
    requires Possible(h, e)
  {
    match e
    case Created(id, cadence, runAt) =>
      History(h.db.(rows := h.db.rows[id := NewRow(cadence, runAt)]), h.marks[id := []])
    case Deleted(id) =>
      History(Tables(h.db.rows - {id}, map c | c in h.db.runs && c.id != id :: h.db.runs[c]), h.marks)
    case Toggle(id, enabled, now) =>
      var toggled := h.db.(rows := h.db.rows[id := Toggled(h.db.rows[id], enabled, now)]);
      var marked := if enabled && id in h.marks then h.marks[id := h.marks[id] + [Resumed]] else h.marks;
      History(toggled, marked)
    case Ticked(now, batch, w) =>
      var executed := Executed(h.db, batch, now, w);
      var marked := map id | id in h.marks ::
        if id in executed && id in h.db.rows then h.marks[id] + [MarkOf(h.db.rows[id], now, w.outcomes(id))]
        else h.marks[id];
      History(RunBatch(h.db, batch, now, w), marked)
  }

  /** Failing runs since the last success or resume. */
  function FailingStreak(marks: seq<Mark>): nat {
    if marks != [] && Fails(marks[|marks| - 1]) then 1 + FailingStreak(marks[..|marks| - 1]) else 0
  }

  ghost predicate RowSound(h: History, id: AutomationId)
    requires id in h.db.rows
  {
    var row := h.db.rows[id];
    && id in h.marks
    && row.failures == FailingStreak(h.marks[id]) <= MAX_CONSECUTIVE_FAILURES
    && (row.enabled && row.status.Active? ==> row.failures < MAX_CONSECUTIVE_FAILURES)
  }

  ghost predicate Unspent(db: Tables, c: Claim) {
    c.id in db.rows && (db.rows[c.id].next.Some? ==> c.slot < db.rows[c.id].next.value)
  }

  ghost predicate NeverFourInARow(marks: seq<Mark>) {
    forall k :: 0 <= k <= |marks| ==> FailingStreak(marks[..k]) <= MAX_CONSECUTIVE_FAILURES
  }

  ghost predicate Sound(h: History) {
    && (forall id :: id in h.db.rows ==> RowSound(h, id))
    && (forall c :: c in h.db.runs ==> Unspent(h.db, c))
    && (forall id :: id in h.marks ==> NeverFourInARow(h.marks[id]))
  }

  ghost predicate Distinct<T>(s: seq<T>) {
    forall i, j :: 0 <= i < j < |s| ==> s[i] != s[j]
  }

  ghost predicate NothingSpent(db: Tables) {
    forall c :: c in db.runs ==> Unspent(db, c)
  }

  ghost predicate BatchDone(db: Tables, t: Tables, batch: seq<AutomationId>, now: int, w: Weather) {
    && NothingSpent(t) && t.rows.Keys == db.rows.Keys
    && forall id :: id in db.rows ==> (t.rows[id] ==
         if id in batch && id !in w.faults then Fired(db.rows[id], now, w.outcomes(id)) else db.rows[id])
  }

  /** Firing a due row with no spent slot takes the claim and leaves nothing spent. */
  lemma {:induction false} FiringEffect(db: Tables, id: AutomationId, now: int, outcome: Outcome)
    requires NothingSpent(db) && id in db.rows && Due(db.rows[id], now)
    ensures Claimable(db, id, now)
    ensures NothingSpent(RunOnce(db, id, now, outcome))
    ensures RunOnce(db, id, now, outcome).rows == db.rows[id := Fired(db.rows[id], now, outcome)]
  {
    assert Claimable(db, id, now) by {
      assert Claim(id, SlotOf(db.rows[id], now)) in db.runs ==> Unspent(db, Claim(id, SlotOf(db.rows[id], now)));
    }
    FiredIsNotDue(db.rows[id], now, outcome);
    var t := RunOnce(db, id, now, outcome);
    forall c | c in t.runs ensures Unspent(t, c) {
      assert c in db.runs ==> Unspent(db, c);
    }
  }

  /** The claim on the slot that the table shows for `id`. */
  function Shown(db: Tables, id: AutomationId): Claim
    requires id in db.rows && db.rows[id].next.Some?
  {
    Claim(id, db.rows[id].next.value)
  }

  ghost predicate Precedes<T>(whole: seq<T>, x: T, y: T) {
    forall a, b :: (0 <= a < |whole| && 0 <= b < |whole| && whole[a] == x && whole[b] == y) ==> a < b
  }

  /** What is in `part` comes in the order of `whole`. */
  ghost predicate KeepsOrder<T>(part: seq<T>, whole: seq<T>) {
    forall i, j :: 0 <= i < j < |part| ==> Precedes(whole, part[i], part[j])
  }

  lemma {:induction false} StillPrecedes<T>(whole: seq<T>, x: T, y: T, last: T)
    requires last !in whole && x in whole
    ensures Precedes(whole, x, y) && y in whole ==> Precedes(whole + [last], x, y)
    ensures Precedes(whole + [last], x, last)
  {
    assert forall a :: 0 <= a < |whole| ==> (whole + [last])[a] == whole[a];
  }

  lemma {:induction false} OrderGrows<T>(part: seq<T>, whole: seq<T>, x: T)
    requires KeepsOrder(part, whole) && x !in whole && forall y :: y in part ==> y in whole
    ensures KeepsOrder(part, whole + [x]) && KeepsOrder(part + [x], whole + [x])
  {
    forall i, j | 0 <= i < j < |part| ensures Precedes(whole + [x], part[i], part[j]) {
      StillPrecedes(whole, part[i], part[j], x);
    }
    forall i | 0 <= i < |part| ensures Precedes(whole + [x], part[i], x) {
      StillPrecedes(whole, part[i], x, x);
    }
  }

  /** The members of the batch that fire, in its order: no fault, and the slot shown is not taken. */
  ghost predicate FiringOnes(db: Tables, batch: seq<AutomationId>, w: Weather, executed: seq<AutomationId>)
    requires forall id :: id in batch ==> id in db.rows && db.rows[id].next.Some?
  {
    && Distinct(executed) && KeepsOrder(executed, batch)
    && forall id :: id in executed <==> id in batch && id !in w.faults && Shown(db, id) !in db.runs
  }

  /** Every firing took the slot shown, has a run row of its own that tells how it ended, and moved its
      automation on; no other run row and no other automation is touched. */
  ghost predicate FiringsRecorded(db: Tables, t: Tables, now: int, w: Weather, executed: seq<AutomationId>)
    requires forall id :: id in executed ==> id in db.rows && db.rows[id].next.Some?
  {
    && t.runs.Keys == db.runs.Keys + (set id | id in executed :: Shown(db, id))
    && (forall c :: c in db.runs ==> t.runs[c] == db.runs[c])
    && (forall id :: id in executed ==> RecordsFiring(t.runs[Shown(db, id)], now, w.outcomes(id)))
    && t.rows.Keys == db.rows.Keys
    && (forall id :: id in executed ==> MovedOn(db.rows[id], t.rows[id], now, w.outcomes(id)))
    && (forall id :: id in db.rows && id !in executed ==> t.rows[id] == db.rows[id])
  }

  lemma {:induction false} OneFiringRecorded(
    db: Tables, before: Tables, executed: seq<AutomationId>, id: AutomationId, now: int, w: Weather)
    requires id in db.rows && Due(db.rows[id], now) && id !in executed && Shown(db, id) !in db.runs
    requires forall other :: other in executed ==> other in db.rows && db.rows[other].next.Some?
    requires FiringsRecorded(db, before, now, w, executed)
    ensures FiringsRecorded(db, RunOnce(before, id, now, w.outcomes(id)), now, w, executed + [id])
  {
    var t := RunOnce(before, id, now, w.outcomes(id));
    assert before.rows[id] == db.rows[id];
    FiringIsRecorded(db.rows[id], now, w.outcomes(id));
    assert Shown(db, id) !in before.runs;
    assert t.runs == before.runs[Shown(db, id) := FinishedRun(now, w.outcomes(id))];
  }

  /** One more member of the batch, and whether it fires. */
  lemma {:induction false} OneMoreOfBatch(
    db: Tables, init: seq<AutomationId>, id: AutomationId, w: Weather, executed: seq<AutomationId>)
    requires id !in init && id in db.rows && db.rows[id].next.Some?
    requires forall other :: other in init ==> other in db.rows && db.rows[other].next.Some?
    requires FiringOnes(db, init, w, executed)
    ensures FiringOnes(db, init + [id], w,
                       if id !in w.faults && Shown(db, id) !in db.runs then executed + [id] else executed)
  {
    OrderGrows(executed, init, id);
  }

  lemma {:induction false} MoreRecorded(
    db: Tables, before: Tables, executed: seq<AutomationId>, id: AutomationId, now: int, w: Weather)
    requires id in db.rows && Due(db.rows[id], now) && id !in executed
    requires forall other :: other in executed ==> other in db.rows && db.rows[other].next.Some?
    requires FiringsRecorded(db, before, now, w, executed)
    ensures Claimable(before, id, now) <==> Shown(db, id) !in db.runs
    ensures var fires := id !in w.faults && Shown(db, id) !in db.runs;
            FiringsRecorded(db, if id in w.faults then before else RunOnce(before, id, now, w.outcomes(id)), now, w,
                            if fires then executed + [id] else executed)
  {
    assert before.rows[id] == db.rows[id];
    assert Shown(db, id) in before.runs <==> Shown(db, id) in db.runs;
    if id !in w.faults && Shown(db, id) !in db.runs {
      OneFiringRecorded(db, before, executed, id, now, w);
    }
  }

  lemma {:induction false} BatchUnfolds(
    db: Tables, init: seq<AutomationId>, id: AutomationId, now: int, w: Weather)
    requires forall other :: other in init + [id] ==> other in db.rows
    ensures var before := RunBatch(db, init, now, w);
            && RunBatch(db, init + [id], now, w) ==
                 (if id in w.faults then before else RunOnce(before, id, now, w.outcomes(id)))
            && Executed(db, init + [id], now, w) ==
                 Executed(db, init, now, w) + if id !in w.faults && Claimable(before, id, now) then [id] else []
  {
    assert (init + [id])[..|init|] == init;
  }

  ghost predicate Recorded(
    db: Tables, batch: seq<AutomationId>, now: int, w: Weather, t: Tables, executed: seq<AutomationId>)
    requires forall id :: id in batch ==> id in db.rows && db.rows[id].next.Some?
  {
    FiringOnes(db, batch, w, executed) && FiringsRecorded(db, t, now, w, executed)
  }

  lemma {:induction false} RecordedOneMore(
    db: Tables, init: seq<AutomationId>, id: AutomationId, now: int, w: Weather, before: Tables,
    executed: seq<AutomationId>, t: Tables, more: seq<AutomationId>)
    requires id !in init && id in db.rows && Due(db.rows[id], now)
    requires forall other :: other in init ==> other in db.rows && db.rows[other].next.Some?
    requires Recorded(db, init, now, w, before, executed)
    requires t == if id in w.faults then before else RunOnce(before, id, now, w.outcomes(id))
    requires more == executed + if id !in w.faults && Claimable(before, id, now) then [id] else []
    ensures Recorded(db, init + [id], now, w, t, more)
  {
    OneMoreOfBatch(db, init, id, w, executed);
    MoreRecorded(db, before, executed, id, now, w);
    assert executed + [] == executed;
  }

  /** Whatever the tables hold, a batch fires exactly its members that meet no fault and whose slot is still
      free, and records each firing. */
  lemma {:induction false} BatchIsRecorded(db: Tables, batch: seq<AutomationId>, now: int, w: Weather)
    requires Distinct(batch)
    requires forall id :: id in batch ==> id in db.rows && Due(db.rows[id], now)
    ensures forall id :: id in batch ==> db.rows[id].next.Some?
    ensures Recorded(db, batch, now, w, RunBatch(db, batch, now, w), Executed(db, batch, now, w))
    decreases |batch|
  {
    if batch != [] {
      var init, id := batch[..|batch| - 1], batch[|batch| - 1];
      assert batch == init + [id];
      BatchIsRecorded(db, init, now, w);
      BatchUnfolds(db, init, id, now, w);
      RecordedOneMore(db, init, id, now, w, RunBatch(db, init, now, w), Executed(db, init, now, w),
                      RunBatch(db, batch, now, w), Executed(db, batch, now, w));
    }
  }

  lemma {:induction false} BatchFires(db: Tables, batch: seq<AutomationId>, now: int, w: Weather)
    requires Distinct(batch) && NothingSpent(db)
    requires forall id :: id in batch ==> id in db.rows && Due(db.rows[id], now)
    ensures BatchDone(db, RunBatch(db, batch, now, w), batch, now, w)
    ensures forall id :: id in Executed(db, batch, now, w) <==> id in batch && id !in w.faults
    decreases |batch|
  {
    if batch != [] {
      var init, id := batch[..|batch| - 1], batch[|batch| - 1];
      assert batch == init + [id];
      BatchFires(db, init, now, w);
      var before := RunBatch(db, init, now, w);
      assert before.rows[id] == db.rows[id];
      FiringEffect(before, id, now, w.outcomes(id));
    }
  }

  /** A batch of due, distinct automations with no spent slot fires exactly its fault-free members, leaves no
      slot spent, and records each firing. */
  lemma {:induction false} BatchEffect(db: Tables, batch: seq<AutomationId>, now: int, w: Weather)
    requires Distinct(batch) && NothingSpent(db)
    requires forall id :: id in batch ==> id in db.rows && Due(db.rows[id], now)
    ensures BatchDone(db, RunBatch(db, batch, now, w), batch, now, w)
    ensures forall id :: id in Executed(db, batch, now, w) <==> id in batch && id !in w.faults
    ensures forall id :: id in Executed(db, batch, now, w) ==> db.rows[id].next.Some?
    ensures FiringsRecorded(db, RunBatch(db, batch, now, w), now, w, Executed(db, batch, now, w))
  {
    BatchFires(db, batch, now, w);
    BatchIsRecorded(db, batch, now, w);
  }

  lemma {:induction false} StreakGrows(marks: seq<Mark>, m: Mark)
    ensures FailingStreak(marks + [m]) == if Fails(m) then 1 + FailingStreak(marks) else 0
    ensures NeverFourInARow(marks) && FailingStreak(marks + [m]) <= MAX_CONSECUTIVE_FAILURES ==>
      NeverFourInARow(marks + [m])
  {
    assert (marks + [m])[..|marks|] == marks;
    forall k | 0 <= k <= |marks| + 1
      ensures (marks + [m])[..k] == if k <= |marks| then marks[..k] else marks + [m]
    {
    }
  }

  lemma {:induction false} SoundKept(h: History, e: Event)
    requires Sound(h) && Possible(h, e)
    ensures Sound(After(h, e))
  {
    var t := After(h, e);
    match e
    case Created(id, _, _) =>
      assert RowSound(t, id);
      forall c | c in t.db.runs ensures Unspent(t.db, c) { assert Unspent(h.db, c); assert RowSound(h, c.id); }
      forall i | i in t.db.rows ensures RowSound(t, i) { assert i != id ==> RowSound(h, i); }
    case Deleted(id) =>
      forall i | i in t.db.rows ensures RowSound(t, i) { assert RowSound(h, i); }
      forall c | c in t.db.runs ensures Unspent(t.db, c) { assert Unspent(h.db, c); }
    case Toggle(id, enabled, now) =>
      ToggleSound(h, e);
    case Ticked(now, batch, w) =>
      TickSound(h, now, batch, w);
  }

  lemma {:induction false} ToggleSound(h: History, e: Event)
    requires Sound(h) && Possible(h, e) && e.Toggle?
    ensures Sound(After(h, e))
  {
    var t := After(h, e);
    var id, row := e.id, h.db.rows[e.id];
    assert RowSound(h, id);
    StreakGrows(h.marks[id], Resumed);
    forall i | i in t.db.rows ensures RowSound(t, i) { assert RowSound(h, i); }
    forall c | c in t.db.runs ensures Unspent(t.db, c) {
      assert Unspent(h.db, c);
      if c.id == id && e.enabled && row.next.Some? && row.next.value <= e.now && !row.cadence.Once? {
        NextOccurrenceIsLeastSlot(row.cadence, e.now, row.next.value);
      }
    }
  }

  lemma {:induction false} TickSound(h: History, now: int, batch: seq<AutomationId>, w: Weather)
    requires Sound(h) && Possible(h, Ticked(now, batch, w))
    ensures Sound(After(h, Ticked(now, batch, w)))
  {
    var t := After(h, Ticked(now, batch, w));
    BatchFires(h.db, batch, now, w);
    forall id | id in t.db.rows ensures RowSound(t, id) {
      assert RowSound(h, id);
      StreakGrows(h.marks[id], MarkOf(h.db.rows[id], now, w.outcomes(id)));
    }
    MarksSound(h, now, batch, w);
  }

  lemma {:induction false} MarksSound(h: History, now: int, batch: seq<AutomationId>, w: Weather)
    requires Sound(h) && Possible(h, Ticked(now, batch, w))
    requires forall id :: id in Executed(h.db, batch, now, w) <==> id in batch && id !in w.faults
    ensures forall id :: id in After(h, Ticked(now, batch, w)).marks ==>
      NeverFourInARow(After(h, Ticked(now, batch, w)).marks[id])
  {
    var t := After(h, Ticked(now, batch, w));
    forall id | id in t.marks ensures NeverFourInARow(t.marks[id]) {
      assert NeverFourInARow(h.marks[id]);
      if id in batch {
        assert RowSound(h, id) && Due(h.db.rows[id], now);
        StreakGrows(h.marks[id], MarkOf(h.db.rows[id], now, w.outcomes(id)));
      }
    }
  }

  ghost predicate Happens(h: History, events: seq<Event>)
    decreases |events|
  {
    events == [] || (Possible(h, events[0]) && Happens(After(h, events[0]), events[1..]))
  }

  ghost function Replay(h: History, events: seq<Event>): History
    requires Happens(h, events)
    decreases |events|
  {
    if events == [] then h else Replay(After(h, events[0]), events[1..])
  }

  lemma {:induction false} ReplayKeepsSound(h: History, events: seq<Event>)
    requires Sound(h) && Happens(h, events)
    ensures Sound(Replay(h, events))
    decreases |events|
  {
    if events != [] {
      SoundKept(h, events[0]);
      ReplayKeepsSound(After(h, events[0]), events[1..]);
    }
  }

  /** For one scheduler, whatever the clock, the users, the renderer and the database do: every claimed
      slot is earlier than the slot shown next, the run rows are exactly the firings, and no automation,
      deleted ones included, ever makes a fourth failing run in a row without a success or a resume in between. */
  lemma {:induction false} OneSchedulerStaysSound(events: seq<Event>)
    requires Happens(Start, events)
    ensures var h := Replay(Start, events);
            && (forall c :: c in h.db.runs ==> Unspent(h.db, c))
            && (forall id :: id in h.marks ==> NeverFourInARow(h.marks[id]))
            && (forall id :: id in h.db.rows ==>
                  id in h.marks && h.db.rows[id].failures == FailingStreak(h.marks[id])
                  && MarksRecorded(h.marks[id], id, h.db.runs))
  {
    ReplayKeepsSound(Start, events);
    var h := Replay(Start, events);
    forall id | id in h.db.rows
      ensures id in h.marks && h.db.rows[id].failures == FailingStreak(h.marks[id])
      ensures MarksRecorded(h.marks[id], id, h.db.runs)
    {
      assert RowSound(h, id);
      EveryFiringHasItsRun(events, id);
    }
  }

  // ---- Every firing has its run row ----

  /** The firings of one automation, in order, are for ever later slots; each has its own run row, which tells
      how and when that firing ended; and the automation has no other run rows. */
  ghost predicate MarksRecorded(marks: seq<Mark>, id: AutomationId, runs: map<Claim, RunRow>) {
    && (forall i, j :: 0 <= i < j < |marks| && marks[i].Firing? && marks[j].Firing? ==> marks[i].slot < marks[j].slot)
    && (forall i :: 0 <= i < |marks| && marks[i].Firing? ==> HasRun(marks[i], id, runs))
    && (forall c :: c in runs && c.id == id ==> exists i :: 0 <= i < |marks| && IsFor(marks[i], c.slot))
  }

  predicate IsFor(m: Mark, slot: int) {
    m.Firing? && m.slot == slot
  }

  predicate HasRun(m: Mark, id: AutomationId, runs: map<Claim, RunRow>)
    requires m.Firing?
  {
    Claim(id, m.slot) in runs && RecordsFiring(runs[Claim(id, m.slot)], m.at, m.outcome)
  }

  ghost predicate AllRecorded(h: History) {
    forall id :: id in h.db.rows ==> id in h.marks && MarksRecorded(h.marks[id], id, h.db.runs)
  }

  lemma {:induction false} ResumeRecorded(marks: seq<Mark>, id: AutomationId, runs: map<Claim, RunRow>)
    requires MarksRecorded(marks, id, runs)
    ensures MarksRecorded(marks + [Resumed], id, runs)
  {
    forall c | c in runs && c.id == id
      ensures exists i :: 0 <= i < |marks| + 1 && IsFor((marks + [Resumed])[i], c.slot)
    {
      var i :| 0 <= i < |marks| && IsFor(marks[i], c.slot);
      assert IsFor((marks + [Resumed])[i], c.slot);
    }
  }

  lemma {:induction false} FiringRecorded(
    marks: seq<Mark>, m: Mark, id: AutomationId, runs: map<Claim, RunRow>, more: map<Claim, RunRow>)
    requires MarksRecorded(marks, id, runs) && m.Firing? && HasRun(m, id, more)
    requires forall c :: c in runs && c.id == id ==> c.slot < m.slot && c in more && more[c] == runs[c]
    requires forall c :: c in more && c.id == id ==> c in runs || c.slot == m.slot
    ensures MarksRecorded(marks + [m], id, more)
  {
    var after := marks + [m];
    forall i | 0 <= i < |marks| && marks[i].Firing? ensures HasRun(after[i], id, more) && marks[i].slot < m.slot {
      assert HasRun(marks[i], id, runs);
    }
    forall c | c in more && c.id == id ensures exists i :: 0 <= i < |after| && IsFor(after[i], c.slot) {
      if c in runs {
        var i :| 0 <= i < |marks| && IsFor(marks[i], c.slot);
        assert IsFor(after[i], c.slot);
      } else {
        assert IsFor(after[|marks|], c.slot);
      }
    }
  }

  /** An automation of which no run row changes keeps its record. */
  lemma {:induction false} RecordKept(
    marks: seq<Mark>, id: AutomationId, runs: map<Claim, RunRow>, others: map<Claim, RunRow>)
    requires MarksRecorded(marks, id, runs)
    requires forall c: Claim :: c.id == id ==> (c in others <==> c in runs) && (c in runs ==> others[c] == runs[c])
    ensures MarksRecorded(marks, id, others)
  {
    forall i | 0 <= i < |marks| && marks[i].Firing? ensures HasRun(marks[i], id, others) {
      assert HasRun(marks[i], id, runs);
      assert Claim(id, marks[i].slot).id == id;
    }
  }

  lemma {:induction false} TickRecorded(h: History, now: int, batch: seq<AutomationId>, w: Weather)
    requires Sound(h) && AllRecorded(h) && Possible(h, Ticked(now, batch, w))
    ensures AllRecorded(After(h, Ticked(now, batch, w)))
  {
    var t := After(h, Ticked(now, batch, w));
    var executed := Executed(h.db, batch, now, w);
    BatchIsRecorded(h.db, batch, now, w);
    forall id | id in t.db.rows ensures id in t.marks && MarksRecorded(t.marks[id], id, t.db.runs) {
      assert MarksRecorded(h.marks[id], id, h.db.runs);
      if id in executed {
        FiringMarked(h, t.db, now, w, executed, id);
      } else {
        RecordKept(h.marks[id], id, h.db.runs, t.db.runs);
      }
    }
  }

  lemma {:induction false} FiringMarked(
    h: History, t: Tables, now: int, w: Weather, executed: seq<AutomationId>, id: AutomationId)
    requires NothingSpent(h.db) && id in executed && id in h.marks && MarksRecorded(h.marks[id], id, h.db.runs)
    requires forall other :: other in executed ==> other in h.db.rows && h.db.rows[other].next.Some?
    requires FiringsRecorded(h.db, t, now, w, executed)
    ensures MarksRecorded(h.marks[id] + [MarkOf(h.db.rows[id], now, w.outcomes(id))], id, t.runs)
  {
    var m := MarkOf(h.db.rows[id], now, w.outcomes(id));
    assert Shown(h.db, id) in t.runs && HasRun(m, id, t.runs);
    forall c | c in h.db.runs && c.id == id ensures c.slot < m.slot {
      assert Unspent(h.db, c);
    }
    FiringRecorded(h.marks[id], m, id, h.db.runs, t.runs);
  }

  lemma {:induction false} RecordsKept(h: History, e: Event)
    requires Sound(h) && AllRecorded(h) && Possible(h, e)
    ensures AllRecorded(After(h, e))
  {
    var t := After(h, e);
    match e
    case Created(id, _, _) =>
      forall c | c in h.db.runs ensures c.id != id { assert Unspent(h.db, c); assert RowSound(h, c.id); }
      forall i | i in t.db.rows ensures i in t.marks && MarksRecorded(t.marks[i], i, t.db.runs) {
        assert i != id ==> MarksRecorded(h.marks[i], i, h.db.runs);
      }
    case Deleted(id) =>
      forall i | i in t.db.rows ensures i in t.marks && MarksRecorded(t.marks[i], i, t.db.runs) {
        RecordKept(h.marks[i], i, h.db.runs, t.db.runs);
      }
    case Toggle(id, enabled, now) =>
      forall i | i in t.db.rows ensures i in t.marks && MarksRecorded(t.marks[i], i, t.db.runs) {
        assert MarksRecorded(h.marks[i], i, h.db.runs);
        ResumeRecorded(h.marks[i], i, h.db.runs);
      }
    case Ticked(now, batch, w) =>
      TickRecorded(h, now, batch, w);
  }

  lemma {:induction false} ReplayKeepsRecords(h: History, events: seq<Event>)
    requires Sound(h) && AllRecorded(h) && Happens(h, events)
    ensures AllRecorded(Replay(h, events))
    decreases |events|
  {
    if events != [] {
      SoundKept(h, events[0]);
      RecordsKept(h, events[0]);
      ReplayKeepsRecords(After(h, events[0]), events[1..]);
    }
  }

  /** Along every history of one scheduler, the run rows of an automation that still exists are its firings,
      one row each, in the order of their slots, and each row tells when and how that firing ended. */
  lemma {:induction false} EveryFiringHasItsRun(events: seq<Event>, id: AutomationId)
    requires Happens(Start, events) && id in Replay(Start, events).db.rows
    ensures var h := Replay(Start, events);
            id in h.marks && MarksRecorded(h.marks[id], id, h.db.runs)
  {
    ReplayKeepsRecords(Start, events);
  }

  function DueSet(db: Tables, now: int): set<AutomationId> {
    set id | id in db.rows && Due(db.rows[id], now)
  }

  function ToSet<T>(s: seq<T>): set<T> {
    set x | x in s
  }

  lemma {:induction false} DistinctCount<T>(s: seq<T>)
    requires Distinct(s)
    ensures |ToSet(s)| == |s|
    decreases |s|
  {
    if s != [] {
      var init, last := s[..|s| - 1], s[|s| - 1];
      assert s == init + [last];
      DistinctCount(init);
      assert ToSet(s) == ToSet(init) + {last};
    }
  }

  /** A tick without database failures removes its whole batch from the due set and adds nothing. */
  lemma {:induction false} TickTakesBatch(db: Tables, batch: seq<AutomationId>, now: int, limit: nat, w: Weather)
    requires NothingSpent(db) && w.faults == {} && IsDueBatch(db.rows, now, limit, batch)
    ensures var t := RunBatch(db, batch, now, w);
            && NothingSpent(t)
            && DueSet(t, now) == DueSet(db, now) - ToSet(batch)
            && |DueSet(t, now)| == if |DueSet(db, now)| <= limit then 0 else |DueSet(db, now)| - limit
  {
    BatchFires(db, batch, now, w);
    var t := RunBatch(db, batch, now, w);
    forall id | id in batch ensures !Due(t.rows[id], now) {
      FiredIsNotDue(db.rows[id], now, w.outcomes(id));
    }
    assert DueSet(t, now) == DueSet(db, now) - ToSet(batch);
    DistinctCount(batch);
    assert ToSet(batch) <= DueSet(db, now);
    assert |batch| < limit ==> DueSet(db, now) <= ToSet(batch);
    CountLeft(DueSet(db, now), ToSet(batch), limit);
  }

  /** Taking at most `limit` elements, and all of them if it is fewer, leaves the rest. */
  lemma {:induction false} CountLeft<T>(all: set<T>, taken: set<T>, limit: nat)
    requires taken <= all && |taken| <= limit && (|taken| < limit ==> all <= taken)
    ensures |all - taken| == if |all| <= limit then 0 else |all| - limit
  {
    assert all == taken + (all - taken);
  }

  /** `ticks[i]` is the batch of tick i, all at the same instant and without database failures. */
  ghost predicate TicksAt(db: Tables, now: int, ticks: seq<seq<AutomationId>>, w: Weather)
    decreases |ticks|
  {
    ticks == [] || (
      && IsDueBatch(db.rows, now, SCHEDULER_BATCH_SIZE, ticks[0])
      && TicksAt(RunBatch(db, ticks[0], now, w), now, ticks[1..], w))
  }

  ghost function AfterTicks(db: Tables, now: int, ticks: seq<seq<AutomationId>>, w: Weather): Tables
    requires TicksAt(db, now, ticks, w)
    decreases |ticks|
  {
    if ticks == [] then db else AfterTicks(RunBatch(db, ticks[0], now, w), now, ticks[1..], w)
  }

  /** A backlog of n due automations shrinks by 20 a tick and is gone after ceil(n / 20) ticks, not sooner. */
  lemma {:induction false} BacklogDrains(db: Tables, now: int, ticks: seq<seq<AutomationId>>, w: Weather)
    requires NothingSpent(db) && w.faults == {} && TicksAt(db, now, ticks, w)
    ensures var n, k := |DueSet(db, now)|, |ticks| * SCHEDULER_BATCH_SIZE;
            |DueSet(AfterTicks(db, now, ticks, w), now)| == if n <= k then 0 else n - k
    decreases |ticks|
  {
    if ticks != [] {
      TickTakesBatch(db, ticks[0], now, SCHEDULER_BATCH_SIZE, w);
      BacklogDrains(RunBatch(db, ticks[0], now, w), now, ticks[1..], w);
    }
  }
}
