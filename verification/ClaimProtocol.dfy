/** Many scheduler workers, stale snapshots and user requests against one table.

    A worker reads a due list once per tick and keeps those row values for the whole tick. It claims
    a slot by inserting into the run table, where the pair (automation, slot) is unique; an insert
    that is not yet committed blocks every other insert of the same pair. The commit then publishes
    the run and the columns the worker changed, and only those columns. */
module ClaimProtocol {
  import opened Wrappers
  import opened Schedule
  import opened Automations

  type WorkerId = nat
  type RequestId = nat

  datatype Snap = Snap(id: AutomationId, row: Row)

  /** `holding` says that the claim of the first queued row is inserted and uncommitted. */
  datatype Worker = Idle | Busy(now: int, queue: seq<Snap>, holding: bool)

  datatype Request = Request(id: AutomationId, row: Row, enabled: bool, now: int)

  datatype Origin = Origin(cadence: Cadence, runAt: int)

  datatype Firing = Firing(claim: Claim, now: int, run: RunRow)

  /** `origins` remembers every automation ever created and `log` every firing ever committed. */
  datatype System = System(
    rows: map<AutomationId, Row>,
    runs: map<Claim, RunRow>,
    workers: map<WorkerId, Worker>,
    requests: map<RequestId, Request>,
    origins: map<AutomationId, Origin>,
    log: seq<Firing>)

  datatype Action =
    | Create(id: AutomationId, cadence: Cadence, runAt: int)
    | Delete(id: AutomationId)
    | ReadForToggle(request: RequestId, id: AutomationId, enabled: bool, now: int)
    | WriteToggle(request: RequestId)
    | AbortToggle(request: RequestId)
    | Tick(worker: WorkerId, now: int, batch: seq<AutomationId>)
    | TryClaim(worker: WorkerId)
    | Commit(worker: WorkerId, outcome: Outcome)
    | Rollback(worker: WorkerId)
    | Stop(worker: WorkerId)
  {
    predicate OfWorker() {
      Tick? || TryClaim? || Commit? || Rollback? || Stop?
    }
  }

  const Initial: System := System(map[], map[], map[], map[], map[], [])

  function WorkerOf(s: System, w: WorkerId): Worker {
    if w in s.workers then s.workers[w] else Idle
  }

  predicate Active(s: System, w: WorkerId) {
    WorkerOf(s, w).Busy? && WorkerOf(s, w).queue != []
  }

  predicate Holds(s: System, w: WorkerId) {
    Active(s, w) && WorkerOf(s, w).holding
  }

  function HeadClaim(s: System, w: WorkerId): Claim
    requires Active(s, w)
  {
    var worker := WorkerOf(s, w);
    Claim(worker.queue[0].id, SlotOf(worker.queue[0].row, worker.now))
  }

  /** Only a column that differs from the value read is written; other columns keep the table's value. */
  function Merge<T(==)>(read: T, mine: T, table: T): T {
    if mine == read then table else mine
  }

  function MergeRow(read: Row, mine: Row, table: Row): Row {
    table.(enabled := Merge(read.enabled, mine.enabled, table.enabled),
           status := Merge(read.status, mine.status, table.status),
           next := Merge(read.next, mine.next, table.next),
           failures := Merge(read.failures, mine.failures, table.failures),
           lastRun := Merge(read.lastRun, mine.lastRun, table.lastRun),
           lastError := Merge(read.lastError, mine.lastError, table.lastError))
  }

  /** Which actions the database and the code allow in a state. */
  ghost predicate Enabled(s: System, a: Action) {
    match a
    case Create(id, _, _) => id !in s.origins
    case Delete(id) => id in s.rows && forall w :: w in s.workers && Holds(s, w) ==> HeadClaim(s, w).id != id
    case ReadForToggle(q, id, _, _) => q !in s.requests && id in s.rows
    case WriteToggle(q) => q in s.requests
    case AbortToggle(q) => q in s.requests
    case Tick(w, now, batch) => WorkerOf(s, w).Idle? && IsDueBatch(s.rows, now, SCHEDULER_BATCH_SIZE, batch)
    case TryClaim(w) => Active(s, w) && !Holds(s, w) &&
      forall v :: v in s.workers && Holds(s, v) ==> HeadClaim(s, v) != HeadClaim(s, w)
    case Commit(w, _) => Holds(s, w)
    case Rollback(w) => Active(s, w)
    case Stop(w) => true
  }

  function Skip(s: System, w: WorkerId): System
    requires Active(s, w)
  {
    var worker := WorkerOf(s, w);
    s.(workers := s.workers[w := worker.(queue := worker.queue[1..], holding := false)])
  }

  function Apply(s: System, a: Action): System
    requires Enabled(s, a)
  {
    match a
    case Create(id, cadence, runAt) =>
      s.(rows := s.rows[id := NewRow(cadence, runAt)], origins := s.origins[id := Origin(cadence, runAt)])
    case Delete(id) =>
      s.(rows := s.rows - {id}, runs := map c | c in s.runs && c.id != id :: s.runs[c])
    case ReadForToggle(q, id, enabled, now) =>
      s.(requests := s.requests[q := Request(id, s.rows[id], enabled, now)])
    case WriteToggle(q) =>
      var r := s.requests[q];
      var written := if r.id in s.rows
                     then s.rows[r.id := MergeRow(r.row, Toggled(r.row, r.enabled, r.now), s.rows[r.id])]
                     else s.rows;
      s.(rows := written, requests := s.requests - {q})
    case AbortToggle(q) => s.(requests := s.requests - {q})
    case Tick(w, now, batch) =>
      var queue := seq(|batch|, i requires 0 <= i < |batch| => Snap(batch[i], s.rows[batch[i]]));
      s.(workers := s.workers[w := Busy(now, queue, false)])
    case TryClaim(w) =>
      var c := HeadClaim(s, w);
      if c in s.runs || c.id !in s.rows then Skip(s, w)
      else s.(workers := s.workers[w := WorkerOf(s, w).(holding := true)])
    case Commit(w, outcome) =>
      var worker := WorkerOf(s, w);
      var Snap(id, row) := worker.queue[0];
      var c, run := HeadClaim(s, w), FinishedRun(worker.now, outcome);
      var written := if id in s.rows
                     then s.rows[id := MergeRow(row, Fired(row, worker.now, outcome), s.rows[id])]
                     else s.rows;
      Skip(s, w).(rows := written, runs := s.runs[c := run], log := s.log + [Firing(c, worker.now, run)])
    case Rollback(w) => Skip(s, w)
    case Stop(w) => s.(workers := s.workers[w := Idle])
  }

  ghost predicate ValidRun(s: System, acts: seq<Action>)
    decreases |acts|
  {
    acts == [] || (Enabled(s, acts[0]) && ValidRun(Apply(s, acts[0]), acts[1..]))
  }

  ghost function Run(s: System, acts: seq<Action>): System
    requires ValidRun(s, acts)
    decreases |acts|
  {
    if acts == [] then s else Run(Apply(s, acts[0]), acts[1..])
  }

  // ---- What every run keeps ----

  ghost predicate RowFits(s: System, id: AutomationId, row: Row) {
    && id in s.origins
    && row.cadence == s.origins[id].cadence
    && (row.next.Some? ==> OnGrid(row.cadence, s.origins[id].runAt, row.next.value))
  }

  ghost predicate SnapFits(s: System, snap: Snap, now: int) {
    RowFits(s, snap.id, snap.row) && snap.row.next.Some? && snap.row.next.value <= now
  }

  ghost predicate WorkerFits(s: System, worker: Worker) {
    worker.Busy? ==> forall i :: 0 <= i < |worker.queue| ==> SnapFits(s, worker.queue[i], worker.now)
  }

  ghost predicate FiringFits(s: System, f: Firing) {
    && f.claim.id in s.origins
    && OnGrid(s.origins[f.claim.id].cadence, s.origins[f.claim.id].runAt, f.claim.slot)
    && f.claim.slot <= f.now
    && (f.claim.id in s.rows ==> f.claim in s.runs && s.runs[f.claim] == f.run)
  }

  ghost predicate HolderFits(s: System, w: WorkerId)
    requires Holds(s, w)
  {
    var c := HeadClaim(s, w);
    c !in s.runs && c.id in s.rows && forall v :: v in s.workers && v != w && Holds(s, v) ==> HeadClaim(s, v) != c
  }

  ghost predicate DataFits(s: System) {
    && (forall id :: id in s.rows ==> RowFits(s, id, s.rows[id]))
    && (forall w :: w in s.workers ==> WorkerFits(s, s.workers[w]))
    && (forall q :: q in s.requests ==> RowFits(s, s.requests[q].id, s.requests[q].row))
  }

  ghost predicate LogFits(s: System) {
    && (forall i :: 0 <= i < |s.log| ==> FiringFits(s, s.log[i]))
    && (forall c :: c in s.runs ==> c.id in s.rows)
    && (forall i, j :: 0 <= i < j < |s.log| ==> s.log[i].claim != s.log[j].claim)
  }

  ghost predicate ClaimsFit(s: System) {
    forall w :: w in s.workers && Holds(s, w) ==> HolderFits(s, w)
  }

  ghost predicate Inv(s: System) {
    DataFits(s) && LogFits(s) && ClaimsFit(s)
  }

  lemma {:induction false} FiredFits(s: System, id: AutomationId, row: Row, table: Row, now: int, outcome: Outcome)
    requires SnapFits(s, Snap(id, row), now) && RowFits(s, id, table)
    ensures RowFits(s, id, MergeRow(row, Fired(row, now, outcome), table))
  {
    NextStaysOnGrid(row.cadence, s.origins[id].runAt, now, row.next.value);
  }

  lemma {:induction false} ToggledFits(s: System, id: AutomationId, row: Row, table: Row, enabled: bool, now: int)
    requires RowFits(s, id, row) && RowFits(s, id, table)
    ensures RowFits(s, id, MergeRow(row, Toggled(row, enabled, now), table))
  {
    if row.next.Some? && row.next.value <= now {
      NextStaysOnGrid(row.cadence, s.origins[id].runAt, now, row.next.value);
    }
  }

  /** An action of worker `a.worker` leaves the claims of every other worker alone. */
  lemma {:induction false} OtherWorkersUntouched(s: System, a: Action, w: WorkerId)
    requires Enabled(s, a)
    requires a.OfWorker() ==> a.worker != w
    ensures WorkerOf(Apply(s, a), w) == WorkerOf(s, w)
  {
  }

  /** Origins are only ever added, so what fitted before an action still fits after it. */
  lemma {:induction false} OriginsPersist(s: System, a: Action, id: AutomationId, row: Row)
    requires Enabled(s, a) && RowFits(s, id, row)
    ensures RowFits(Apply(s, a), id, row)
  {
  }

  lemma {:induction false} RowKept(s: System, a: Action, id: AutomationId)
    requires Inv(s) && Enabled(s, a) && id in Apply(s, a).rows
    ensures RowFits(Apply(s, a), id, Apply(s, a).rows[id])
  {
    if a.Create? && a.id == id {
    } else {
      assert id in s.rows && RowFits(s, id, s.rows[id]);
      if a.WriteToggle? && s.requests[a.request].id == id {
        var r := s.requests[a.request];
        ToggledFits(s, id, r.row, s.rows[id], r.enabled, r.now);
      } else if a.Commit? && HeadClaim(s, a.worker).id == id {
        var worker := WorkerOf(s, a.worker);
        var snap := worker.queue[0];
        assert WorkerFits(s, worker);
        FiredFits(s, id, snap.row, s.rows[id], worker.now, a.outcome);
      }
      OriginsPersist(s, a, id, Apply(s, a).rows[id]);
    }
  }

  /** What a worker queues, unless its own tick queued it, was queued before. */
  lemma {:induction false} QueueOnlyShrinks(s: System, a: Action, w: WorkerId)
    requires Enabled(s, a) && w in Apply(s, a).workers && Apply(s, a).workers[w].Busy?
    requires !(a.Tick? && a.worker == w)
    ensures var was, worker := WorkerOf(s, w), Apply(s, a).workers[w];
            was.Busy? && was.now == worker.now && forall snap :: snap in worker.queue ==> snap in was.queue
  {
    if !(a.OfWorker() && a.worker == w) {
      OtherWorkersUntouched(s, a, w);
    }
  }

  lemma {:induction false} WorkerKept(s: System, a: Action, w: WorkerId)
    requires Inv(s) && Enabled(s, a) && w in Apply(s, a).workers
    ensures WorkerFits(Apply(s, a), Apply(s, a).workers[w])
  {
    var t := Apply(s, a);
    if t.workers[w].Busy? {
      forall i | 0 <= i < |t.workers[w].queue| ensures SnapFits(t, t.workers[w].queue[i], t.workers[w].now) {
        var snap := t.workers[w].queue[i];
        if a.Tick? && a.worker == w {
          assert RowFits(s, snap.id, s.rows[snap.id]);
        } else {
          QueueOnlyShrinks(s, a, w);
          assert snap in t.workers[w].queue && WorkerFits(s, WorkerOf(s, w));
        }
        OriginsPersist(s, a, snap.id, snap.row);
      }
    }
  }

  lemma {:induction false} DataKept(s: System, a: Action)
    requires Inv(s) && Enabled(s, a)
    ensures DataFits(Apply(s, a))
  {
    var t := Apply(s, a);
    forall id | id in t.rows ensures RowFits(t, id, t.rows[id]) {
      RowKept(s, a, id);
    }
    forall w | w in t.workers ensures WorkerFits(t, t.workers[w]) {
      WorkerKept(s, a, w);
    }
    forall q | q in t.requests ensures RowFits(t, t.requests[q].id, t.requests[q].row) {
      OriginsPersist(s, a, t.requests[q].id, t.requests[q].row);
    }
  }

  lemma {:induction false} FiringKept(s: System, a: Action, i: nat)
    requires Inv(s) && Enabled(s, a) && i < |s.log|
    ensures i < |Apply(s, a).log| && Apply(s, a).log[i] == s.log[i] && FiringFits(Apply(s, a), s.log[i])
  {
    assert FiringFits(s, s.log[i]);
  }

  lemma {:induction false} NewFiringFits(s: System, a: Action)
    requires Inv(s) && Enabled(s, a) && a.Commit?
    ensures FiringFits(Apply(s, a), Apply(s, a).log[|s.log|])
    ensures forall i :: 0 <= i < |s.log| ==> s.log[i].claim != HeadClaim(s, a.worker)
  {
    var worker := WorkerOf(s, a.worker);
    assert HolderFits(s, a.worker) && WorkerFits(s, worker) && SnapFits(s, worker.queue[0], worker.now);
    forall i | 0 <= i < |s.log| ensures s.log[i].claim != HeadClaim(s, a.worker) {
      assert FiringFits(s, s.log[i]);
    }
  }

  lemma {:induction false} LogKept(s: System, a: Action)
    requires Inv(s) && Enabled(s, a)
    ensures LogFits(Apply(s, a))
  {
    var t := Apply(s, a);
    forall i | 0 <= i < |s.log| ensures FiringFits(t, t.log[i]) && t.log[i] == s.log[i] {
      FiringKept(s, a, i);
    }
    if a.Commit? {
      NewFiringFits(s, a);
      assert HolderFits(s, a.worker);
    }
  }

  /** After its own action a worker holds a claim exactly when that action took one. */
  lemma {:induction false} HoldsOnlyByClaiming(s: System, a: Action)
    requires Enabled(s, a) && a.OfWorker()
    ensures var t := Apply(s, a);
            Holds(t, a.worker) ==> (
              && a.TryClaim?
              && HeadClaim(t, a.worker) == HeadClaim(s, a.worker)
              && HeadClaim(s, a.worker) !in s.runs
              && HeadClaim(s, a.worker).id in s.rows
              && t.rows == s.rows
              && t.runs == s.runs)
  {
  }

  /** No two workers hold the same claim after an action. */
  lemma {:induction false} HoldersApart(s: System, a: Action, v: WorkerId, w: WorkerId)
    requires Inv(s) && Enabled(s, a) && v != w
    requires v in Apply(s, a).workers && Holds(Apply(s, a), v)
    requires w in Apply(s, a).workers && Holds(Apply(s, a), w)
    ensures HeadClaim(Apply(s, a), v) != HeadClaim(Apply(s, a), w)
  {
    if a.OfWorker() && a.worker == w {
      HoldsOnlyByClaiming(s, a);
      OtherWorkersUntouched(s, a, v);
    } else if a.OfWorker() && a.worker == v {
      HoldsOnlyByClaiming(s, a);
      OtherWorkersUntouched(s, a, w);
    } else {
      OtherWorkersUntouched(s, a, v);
      OtherWorkersUntouched(s, a, w);
      assert HolderFits(s, w);
    }
  }

  lemma {:induction false} HeldClaimStaysFree(s: System, a: Action, w: WorkerId)
    requires Inv(s) && Enabled(s, a)
    requires w in Apply(s, a).workers && Holds(Apply(s, a), w)
    ensures var c := HeadClaim(Apply(s, a), w); c !in Apply(s, a).runs && c.id in Apply(s, a).rows
  {
    if a.OfWorker() && a.worker == w {
      HoldsOnlyByClaiming(s, a);
    } else {
      OtherWorkersUntouched(s, a, w);
      assert HolderFits(s, w);
      if a.Commit? {
        assert HeadClaim(s, a.worker) != HeadClaim(s, w);
      }
    }
  }

  lemma {:induction false} HolderKept(s: System, a: Action, w: WorkerId)
    requires Inv(s) && Enabled(s, a)
    requires w in Apply(s, a).workers && Holds(Apply(s, a), w)
    ensures HolderFits(Apply(s, a), w)
  {
    var t := Apply(s, a);
    HeldClaimStaysFree(s, a, w);
    forall v | v in t.workers && v != w && Holds(t, v) ensures HeadClaim(t, v) != HeadClaim(t, w) {
      HoldersApart(s, a, v, w);
    }
  }

  lemma {:induction false} ClaimsKept(s: System, a: Action)
    requires Inv(s) && Enabled(s, a)
    ensures ClaimsFit(Apply(s, a))
  {
    var t := Apply(s, a);
    forall w | w in t.workers && Holds(t, w) ensures HolderFits(t, w) {
      HolderKept(s, a, w);
    }
  }

  lemma {:induction false} EveryRunKeepsInv(s: System, acts: seq<Action>)
    requires Inv(s) && ValidRun(s, acts)
    ensures Inv(Run(s, acts))
    decreases |acts|
  {
    if acts != [] {
      DataKept(s, acts[0]);
      LogKept(s, acts[0]);
      ClaimsKept(s, acts[0]);
      EveryRunKeepsInv(Apply(s, acts[0]), acts[1..]);
    }
  }

  /** Safety of every interleaving: a slot fires at most once for ever, also across a deletion; each
      fired slot is the original run time plus whole periods and had arrived for the worker that
      fired it, and has its run row as long as the automation exists; a one-off fires at most once, at its
      original run time. */
  lemma {:induction false} EverySlotFiresAtMostOnce(acts: seq<Action>)
    requires ValidRun(Initial, acts)
    ensures var s := Run(Initial, acts);
            && (forall i, j :: 0 <= i < j < |s.log| ==> s.log[i].claim != s.log[j].claim)
            && (forall i :: 0 <= i < |s.log| ==>
                  var f := s.log[i];
                  && f.claim.id in s.origins
                  && OnGrid(s.origins[f.claim.id].cadence, s.origins[f.claim.id].runAt, f.claim.slot)
                  && f.claim.slot <= f.now
                  && (f.claim.id in s.rows ==> f.claim in s.runs && s.runs[f.claim] == f.run))
            && (forall i, j :: 0 <= i < j < |s.log| && s.log[i].claim.id == s.log[j].claim.id ==>
                  !s.origins[s.log[i].claim.id].cadence.Once?)
  {
    EveryRunKeepsInv(Initial, acts);
    var s := Run(Initial, acts);
    forall i, j | 0 <= i < j < |s.log| && s.log[i].claim.id == s.log[j].claim.id
      ensures !s.origins[s.log[i].claim.id].cadence.Once?
    {
      assert FiringFits(s, s.log[i]) && FiringFits(s, s.log[j]);
    }
  }

  /** A commit records the firing it makes, in a run row of its own that tells how it ended, and touches no
      other run row. */
  lemma {:induction false} CommitRecords(s: System, a: Action)
    requires Inv(s) && Enabled(s, a) && a.Commit?
    ensures var (t, c, now) := (Apply(s, a), HeadClaim(s, a.worker), WorkerOf(s, a.worker).now);
            && c !in s.runs && t.runs.Keys == s.runs.Keys + {c} && RecordsFiring(t.runs[c], now, a.outcome)
            && (forall d :: d in s.runs ==> t.runs[d] == s.runs[d])
            && t.log == s.log + [Firing(c, now, t.runs[c])]
            && forall id :: id in s.rows && id != c.id ==> id in t.rows && t.rows[id] == s.rows[id]
  {
    assert HolderFits(s, a.worker);
    RunTellsOutcome(WorkerOf(s, a.worker).now, a.outcome);
  }

  lemma {:induction false} RunTellsOutcome(now: int, outcome: Outcome)
    ensures RecordsFiring(FinishedRun(now, outcome), now, outcome)
  {
    if outcome.RenderFailed? {
      assert Clipped(Truncate(outcome.error, ERROR_PREVIEW_CHARS), outcome.error);
    }
  }

  /** Every column that a writer changed in its copy is written, and every other column keeps the table's value. */
  predicate WritesOnlyChanges(read: Row, mine: Row, before: Row, after: Row) {
    && after.cadence == before.cadence
    && after.enabled == (if mine.enabled == read.enabled then before.enabled else mine.enabled)
    && after.status == (if mine.status == read.status then before.status else mine.status)
    && after.next == (if mine.next == read.next then before.next else mine.next)
    && after.failures == (if mine.failures == read.failures then before.failures else mine.failures)
    && after.lastRun == (if mine.lastRun == read.lastRun then before.lastRun else mine.lastRun)
    && after.lastError == (if mine.lastError == read.lastError then before.lastError else mine.lastError)
  }

  /** What happens to a row between a worker's read and its commit survives, but for the columns that the firing
      itself changes: a pause, for one, unless the firing ends or parks the automation. */
  lemma {:induction false} ChangesSurviveCommit(s: System, a: Action)
    requires Inv(s) && Enabled(s, a) && a.Commit?
    ensures var (snap, now) := (WorkerOf(s, a.worker).queue[0], WorkerOf(s, a.worker).now);
            && snap.id in s.rows && snap.id in Apply(s, a).rows
            && WritesOnlyChanges(snap.row, Fired(snap.row, now, a.outcome), s.rows[snap.id], Apply(s, a).rows[snap.id])
  {
    assert HolderFits(s, a.worker);
  }

  /** A pause or resume leaves alone every other automation and, of its own, what it did not change; one of an
      automation that has been deleted changes no row. */
  lemma {:induction false} ChangesSurviveToggle(s: System, a: Action)
    requires Enabled(s, a) && a.WriteToggle?
    ensures var (r, t) := (s.requests[a.request], Apply(s, a));
            && t.rows.Keys == s.rows.Keys && t.runs == s.runs && t.workers == s.workers && t.log == s.log
            && (forall id :: id in s.rows && id != r.id ==> t.rows[id] == s.rows[id])
            && (r.id in s.rows ==>
                  WritesOnlyChanges(r.row, Toggled(r.row, r.enabled, r.now), s.rows[r.id], t.rows[r.id]))
  {
  }
}
