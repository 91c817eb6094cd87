/** When no claim is ever lost: what keeps the schedule of an automation ahead of its fired slots. It stays
    ahead exactly as long as whoever moves it has a clock not behind its fired slots; that is so when no
    resume moves the schedule while a worker still holds an older copy of the row. */
module ClaimProgress {
  import opened Wrappers
  import opened Schedule
  import opened Automations
  import opened ClaimProtocol

  ghost predicate Queued(s: System, w: WorkerId, id: AutomationId) {
    w in s.workers && s.workers[w].Busy? && exists snap :: snap in s.workers[w].queue && snap.id == id
  }

  /** A resume that moves the next slot reads a current row, and no worker has that row queued.
      One scheduler with user requests between its ticks satisfies this, and so does any number of
      workers without such resumes. Pauses and resumes that keep the slot are never restricted. */
  ghost predicate Orderly(s: System, a: Action)
    requires Enabled(s, a)
  {
    a.WriteToggle? ==>
      var r := s.requests[a.request];
      r.id in s.rows && Toggled(r.row, r.enabled, r.now).next != r.row.next ==>
        s.rows[r.id].next == r.row.next && forall w :: !Queued(s, w, r.id)
  }

  ghost predicate OrderlyRun(s: System, acts: seq<Action>)
    decreases |acts|
  {
    acts == [] || (Enabled(s, acts[0]) && Orderly(s, acts[0]) && OrderlyRun(Apply(s, acts[0]), acts[1..]))
  }

  ghost predicate SnapCurrent(s: System, snap: Snap) {
    snap.id in s.rows && snap.row.next.Some? ==>
      Claim(snap.id, snap.row.next.value) in s.runs || s.rows[snap.id].next == snap.row.next
  }

  ghost predicate QueueCurrent(s: System, worker: Worker) {
    worker.Busy? ==> forall i :: 0 <= i < |worker.queue| ==> SnapCurrent(s, worker.queue[i])
  }

  /** A fired slot is earlier than the slot its automation shows next. */
  ghost predicate Behind(s: System, c: Claim) {
    c.id in s.rows && s.rows[c.id].next.Some? ==> c.slot < s.rows[c.id].next.value
  }

  ghost predicate Ahead(s: System) {
    && (forall c :: c in s.runs ==> Behind(s, c))
    && (forall w :: w in s.workers ==> QueueCurrent(s, s.workers[w]))
    && (forall i, j :: 0 <= i < j < |s.log| && s.log[i].claim.id == s.log[j].claim.id ==>
          s.log[i].claim.slot < s.log[j].claim.slot)
  }

  /** A claim that is held is for the slot the table still shows. */
  lemma {:induction false} HeldSlotIsCurrent(s: System, w: WorkerId)
    requires Inv(s) && Ahead(s) && Holds(s, w)
    ensures var snap := WorkerOf(s, w).queue[0];
            && snap.id in s.rows && snap.row.next.Some?
            && s.rows[snap.id].next == snap.row.next
            && snap.row.next.value <= WorkerOf(s, w).now
            && snap.row.cadence == s.rows[snap.id].cadence
  {
    assert HolderFits(s, w);
    var worker := WorkerOf(s, w);
    assert WorkerFits(s, worker) && QueueCurrent(s, worker);
    assert SnapFits(s, worker.queue[0], worker.now) && SnapCurrent(s, worker.queue[0]);
    assert RowFits(s, worker.queue[0].id, s.rows[worker.queue[0].id]);
  }

  lemma {:induction false} NextMovesForward(row: Row, table: Row, now: int, outcome: Outcome)
    requires row.next.Some? && row.next.value <= now && table.next == row.next
    ensures var mine := MergeRow(row, Fired(row, now, outcome), table);
            mine.next.Some? ==> mine.next.value > row.next.value
  {
    if !row.cadence.Once? {
      NextOccurrenceIsLeastSlot(row.cadence, now, row.next.value);
    }
  }

  lemma {:induction false} ToggleMovesForward(row: Row, table: Row, enabled: bool, now: int)
    requires Toggled(row, enabled, now).next != row.next ==> table.next == row.next
    ensures var mine := MergeRow(row, Toggled(row, enabled, now), table);
            && (mine.next == table.next ||
                (table.next.Some? && (mine.next.Some? ==> mine.next.value > table.next.value)))
            && (Toggled(row, enabled, now).next == row.next ==> mine.next == table.next)
  {
    if !row.cadence.Once? && row.next.Some? {
      NextOccurrenceIsLeastSlot(row.cadence, now, row.next.value);
    }
  }

  /** The next slot of a surviving row never moves back under an orderly action. */
  lemma {:induction false} NextNeverMovesBack(s: System, a: Action, id: AutomationId)
    requires Inv(s) && Ahead(s) && Enabled(s, a) && Orderly(s, a)
    requires id in s.rows && id in Apply(s, a).rows
    ensures var before, after := s.rows[id].next, Apply(s, a).rows[id].next;
            before == after || (before.Some? && (after.Some? ==> after.value > before.value))
  {
    if a.Commit? {
      HeldSlotIsCurrent(s, a.worker);
      var worker := WorkerOf(s, a.worker);
      NextMovesForward(worker.queue[0].row, s.rows[worker.queue[0].id], worker.now, a.outcome);
    } else if a.WriteToggle? && s.requests[a.request].id == id {
      var r := s.requests[a.request];
      ToggleMovesForward(r.row, s.rows[id], r.enabled, r.now);
    }
  }

  lemma {:induction false} RunsStayBehind(s: System, a: Action, c: Claim)
    requires Inv(s) && Ahead(s) && Enabled(s, a) && Orderly(s, a)
    requires c in Apply(s, a).runs
    ensures Behind(Apply(s, a), c)
  {
    if c in s.runs {
      assert Behind(s, c) && c.id in s.rows;
      if c.id in Apply(s, a).rows {
        NextNeverMovesBack(s, a, c.id);
      }
    } else {
      assert a.Commit? && c == HeadClaim(s, a.worker);
      HeldSlotIsCurrent(s, a.worker);
      var worker := WorkerOf(s, a.worker);
      NextMovesForward(worker.queue[0].row, s.rows[c.id], worker.now, a.outcome);
    }
  }

  lemma {:induction false} SnapStaysCurrent(s: System, a: Action, w: WorkerId, snap: Snap)
    requires Inv(s) && Ahead(s) && Enabled(s, a) && Orderly(s, a)
    requires w in s.workers && s.workers[w].Busy? && snap in s.workers[w].queue
    ensures SnapCurrent(Apply(s, a), snap)
  {
    var t := Apply(s, a);
    assert QueueCurrent(s, s.workers[w]) && SnapCurrent(s, snap);
    assert WorkerFits(s, s.workers[w]);
    var i :| 0 <= i < |s.workers[w].queue| && s.workers[w].queue[i] == snap;
    assert SnapFits(s, snap, s.workers[w].now);
    if snap.id in t.rows {
      match a {
        case Commit(v, outcome) =>
          HeldSlotIsCurrent(s, v);
        case WriteToggle(q) =>
          var r := s.requests[q];
          if r.id == snap.id {
            assert Queued(s, w, snap.id);
            ToggleMovesForward(r.row, s.rows[r.id], r.enabled, r.now);
          }
        case Create(id, _, _) =>
          assert snap.id in s.origins;
        case _ =>
      }
    }
  }

  lemma {:induction false} QueuesStayCurrent(s: System, a: Action, w: WorkerId)
    requires Inv(s) && Ahead(s) && Enabled(s, a) && Orderly(s, a) && w in Apply(s, a).workers
    ensures QueueCurrent(Apply(s, a), Apply(s, a).workers[w])
  {
    var t := Apply(s, a);
    if t.workers[w].Busy? {
      forall i | 0 <= i < |t.workers[w].queue| ensures SnapCurrent(t, t.workers[w].queue[i]) {
        if !(a.Tick? && a.worker == w) {
          var snap := t.workers[w].queue[i];
          assert w in s.workers && s.workers[w].Busy? && snap in s.workers[w].queue by {
            if !(a.OfWorker() && a.worker == w) {
              OtherWorkersUntouched(s, a, w);
            }
          }
          SnapStaysCurrent(s, a, w, snap);
        }
      }
    }
  }

  lemma {:induction false} LogStaysIncreasing(s: System, a: Action, i: nat, j: nat)
    requires Inv(s) && Ahead(s) && Enabled(s, a)
    requires i < j < |Apply(s, a).log| && Apply(s, a).log[i].claim.id == Apply(s, a).log[j].claim.id
    ensures Apply(s, a).log[i].claim.slot < Apply(s, a).log[j].claim.slot
  {
    if j == |s.log| {
      HeldSlotIsCurrent(s, a.worker);
      assert FiringFits(s, s.log[i]);
      assert Behind(s, s.log[i].claim);
    }
  }

  lemma {:induction false} AheadKept(s: System, a: Action)
    requires Inv(s) && Ahead(s) && Enabled(s, a) && Orderly(s, a)
    ensures Inv(Apply(s, a)) && Ahead(Apply(s, a))
  {
    var t := Apply(s, a);
    DataKept(s, a);
    LogKept(s, a);
    ClaimsKept(s, a);
    forall c | c in t.runs ensures Behind(t, c) {
      RunsStayBehind(s, a, c);
    }
    forall w | w in t.workers ensures QueueCurrent(t, t.workers[w]) {
      QueuesStayCurrent(s, a, w);
    }
    forall i, j | 0 <= i < j < |t.log| && t.log[i].claim.id == t.log[j].claim.id
      ensures t.log[i].claim.slot < t.log[j].claim.slot
    {
      LogStaysIncreasing(s, a, i, j);
    }
  }

  lemma {:induction false} OrderlyRunsKeepAhead(s: System, acts: seq<Action>)
    requires Inv(s) && Ahead(s) && OrderlyRun(s, acts)
    ensures ValidRun(s, acts) && Inv(Run(s, acts)) && Ahead(Run(s, acts))
    decreases |acts|
  {
    if acts != [] {
      AheadKept(s, acts[0]);
      OrderlyRunsKeepAhead(Apply(s, acts[0]), acts[1..]);
    }
  }

  /** In every orderly run the next slot is unclaimed and later than every slot already fired, so the
      next tick that finds the row due can claim it, and each automation fires in slot order. */
  lemma {:induction false} OrderlyRunsLoseNoClaim(acts: seq<Action>)
    requires OrderlyRun(Initial, acts)
    ensures ValidRun(Initial, acts)
    ensures var s := Run(Initial, acts);
            && (forall id :: id in s.rows && s.rows[id].next.Some? ==> Claim(id, s.rows[id].next.value) !in s.runs)
            && (forall i :: 0 <= i < |s.log| ==> Behind(s, s.log[i].claim))
            && (forall i, j :: 0 <= i < j < |s.log| && s.log[i].claim.id == s.log[j].claim.id ==>
                  s.log[i].claim.slot < s.log[j].claim.slot)
  {
    OrderlyRunsKeepAhead(Initial, acts);
    ShownSlotsAreFree(Run(Initial, acts));
  }

  // ---- The exact condition: the clock of the writer ----

  ghost predicate AllBehind(s: System) {
    forall c :: c in s.runs ==> Behind(s, c)
  }

  ghost predicate RunOnGrid(s: System, c: Claim) {
    c.id in s.origins && OnGrid(s.origins[c.id].cadence, s.origins[c.id].runAt, c.slot)
  }

  ghost predicate RunsOnGrid(s: System) {
    forall c :: c in s.runs ==> RunOnGrid(s, c)
  }

  /** Whose next slot an action is about to move, and what the clock of the writer reads. A commit always
      moves it; a toggle does when it resumes a row whose slot has passed. */
  function Moves(s: System, a: Action): Option<(AutomationId, int)>
    requires Enabled(s, a)
  {
    match a
    case Commit(w, _) => Some((HeadClaim(s, w).id, WorkerOf(s, w).now))
    case WriteToggle(q) =>
      var r := s.requests[q];
      if r.id in s.rows && r.enabled && r.row.next.Some? && r.row.next.value <= r.now then Some((r.id, r.now)) else None
    case _ => None
  }

  /** The writer's clock does not lie behind a slot that has already fired for a recurring automation. */
  ghost predicate ClockInTime(s: System, a: Action)
    requires Enabled(s, a)
  {
    var m := Moves(s, a);
    m.Some? && m.value.0 in s.origins && !s.origins[m.value.0].cadence.Once? ==>
      forall c :: c in s.runs && c.id == m.value.0 ==> c.slot <= m.value.1
  }

  /** Between the clock and the next slot after it the grid has nothing. */
  lemma {:induction false} GridHasNoSlotBetween(cadence: Cadence, origin: int, slot: int, now: int, other: int)
    requires !cadence.Once? && OnGrid(cadence, origin, slot) && slot <= now && OnGrid(cadence, origin, other)
    ensures other < NextOccurrence(cadence, now, slot).value <==> other <= now
  {
    NextOccurrenceIsLeastSlot(cadence, now, slot);
    if other > now {
      var k := PeriodsFromOrigin(cadence, origin, slot);
      var l := PeriodsFromOrigin(cadence, origin, other);
      PeriodsOrder(cadence, origin, k, l);
      assert other == Slot(cadence, slot, l - k) by {
        assert (l - k) * Period(cadence) == l * Period(cadence) - k * Period(cadence);
      }
    }
  }

  lemma {:induction false} PeriodsFromOrigin(cadence: Cadence, origin: int, slot: int) returns (k: nat)
    requires !cadence.Once? && OnGrid(cadence, origin, slot)
    ensures slot == Slot(cadence, origin, k)
  {
    if slot == origin {
      k := 0;
    } else {
      k :| slot == Slot(cadence, origin, k);
    }
  }

  lemma {:induction false} PeriodsOrder(cadence: Cadence, origin: int, k: nat, l: nat)
    requires !cadence.Once?
    ensures Slot(cadence, origin, k) < Slot(cadence, origin, l) ==> k < l
  {
    if l <= k {
      assert l * Period(cadence) <= k * Period(cadence);
    }
  }

  /** Writing the slot after `now` leaves a run of the same automation behind exactly when the run's slot
      is not later than `now`. */
  lemma {:induction false} MovedRowBehindIff(s: System, t: System, c: Claim, slot: int, now: int)
    requires c.id in s.origins && RunOnGrid(s, c) && t.origins == s.origins
    requires OnGrid(s.origins[c.id].cadence, s.origins[c.id].runAt, slot) && slot <= now
    requires c.id in t.rows && t.rows[c.id].next == NextOccurrence(s.origins[c.id].cadence, now, slot)
    ensures Behind(t, c) <==> (s.origins[c.id].cadence.Once? || c.slot <= now)
  {
    var o := s.origins[c.id];
    if !o.cadence.Once? {
      GridHasNoSlotBetween(o.cadence, o.runAt, slot, now, c.slot);
    }
  }

  /** What a commit leaves in the row of its automation. */
  lemma {:induction false} CommitMoves(s: System, w: WorkerId, outcome: Outcome)
    requires Inv(s) && Holds(s, w)
    ensures var t, c, now := Apply(s, Commit(w, outcome)), HeadClaim(s, w), WorkerOf(s, w).now;
            && c.id in s.origins && c.id in t.rows && c.slot <= now
            && OnGrid(s.origins[c.id].cadence, s.origins[c.id].runAt, c.slot)
            && t.rows[c.id].next == NextOccurrence(s.origins[c.id].cadence, now, c.slot)
            && t.runs.Keys == s.runs.Keys + {c} && t.origins == s.origins
            && (forall id :: id in s.rows && id != c.id ==> id in t.rows && t.rows[id] == s.rows[id])
  {
    var worker := WorkerOf(s, w);
    assert HolderFits(s, w) && WorkerFits(s, worker) && SnapFits(s, worker.queue[0], worker.now);
    var row := worker.queue[0].row;
    NextStaysOnGrid(row.cadence, s.origins[HeadClaim(s, w).id].runAt, worker.now, row.next.value);
  }

  lemma {:induction false} CommitBehindIff(s: System, w: WorkerId, outcome: Outcome)
    requires Inv(s) && RunsOnGrid(s) && AllBehind(s) && Holds(s, w)
    ensures AllBehind(Apply(s, Commit(w, outcome))) <==> ClockInTime(s, Commit(w, outcome))
  {
    var t, claim, now := Apply(s, Commit(w, outcome)), HeadClaim(s, w), WorkerOf(s, w).now;
    CommitMoves(s, w, outcome);
    forall c | c in t.runs
      ensures Behind(t, c) <==> (c.id == claim.id ==> s.origins[claim.id].cadence.Once? || c.slot <= now)
    {
      assert c in s.runs ==> Behind(s, c) && RunOnGrid(s, c) && c.id in s.rows;
      if c.id == claim.id {
        MovedRowBehindIff(s, t, c, claim.slot, now);
      }
    }
    assert forall c :: c in s.runs ==> c in t.runs;
  }

  /** What a moving toggle leaves in the row. */
  lemma {:induction false} ToggleMoves(s: System, q: RequestId)
    requires Inv(s) && q in s.requests && Moves(s, WriteToggle(q)).Some?
    ensures var t, r := Apply(s, WriteToggle(q)), s.requests[q];
            && r.id in s.origins && t.origins == s.origins && t.rows.Keys == s.rows.Keys && t.runs == s.runs
            && OnGrid(s.origins[r.id].cadence, s.origins[r.id].runAt, r.row.next.value)
            && t.rows[r.id].next == NextOccurrence(s.origins[r.id].cadence, r.now, r.row.next.value)
            && (forall id :: id in s.rows && id != r.id ==> t.rows[id] == s.rows[id])
  {
    var r := s.requests[q];
    assert RowFits(s, r.id, r.row);
    NextStaysOnGrid(r.row.cadence, s.origins[r.id].runAt, r.now, r.row.next.value);
  }

  lemma {:induction false} ToggleBehindIff(s: System, q: RequestId)
    requires Inv(s) && RunsOnGrid(s) && AllBehind(s) && q in s.requests && Moves(s, WriteToggle(q)).Some?
    ensures AllBehind(Apply(s, WriteToggle(q))) <==> ClockInTime(s, WriteToggle(q))
  {
    var t, r := Apply(s, WriteToggle(q)), s.requests[q];
    ToggleMoves(s, q);
    forall c | c in t.runs
      ensures Behind(t, c) <==> (c.id == r.id ==> s.origins[r.id].cadence.Once? || c.slot <= r.now)
    {
      assert Behind(s, c) && RunOnGrid(s, c) && c.id in s.rows;
      if c.id == r.id {
        MovedRowBehindIff(s, t, c, r.row.next.value, r.now);
      }
    }
  }

  /** An action that moves no slot leaves every run as far behind as it was. */
  lemma {:induction false} StillBehind(s: System, a: Action)
    requires Inv(s) && AllBehind(s) && Enabled(s, a) && Moves(s, a).None?
    ensures AllBehind(Apply(s, a))
  {
    var t := Apply(s, a);
    forall c | c in t.runs ensures Behind(t, c) {
      assert c in s.runs && Behind(s, c) && c.id in s.rows;
      assert RowFits(s, c.id, s.rows[c.id]);
    }
  }

  /** One action keeps every automation ahead of its fired slots if and only if it moves no slot, or the
      clock of whoever moves it is not behind a slot that this automation has already fired. */
  lemma {:induction false} StepStaysBehindIff(s: System, a: Action)
    requires Inv(s) && RunsOnGrid(s) && AllBehind(s) && Enabled(s, a)
    ensures AllBehind(Apply(s, a)) <==> ClockInTime(s, a)
  {
    if Moves(s, a).None? {
      StillBehind(s, a);
    } else if a.Commit? {
      CommitBehindIff(s, a.worker, a.outcome);
    } else {
      ToggleBehindIff(s, a.request);
    }
  }

  lemma {:induction false} RunsStayOnGrid(s: System, a: Action)
    requires Inv(s) && RunsOnGrid(s) && Enabled(s, a)
    ensures RunsOnGrid(Apply(s, a))
  {
    var t := Apply(s, a);
    if a.Commit? {
      CommitMoves(s, a.worker, a.outcome);
    }
    forall c | c in t.runs ensures RunOnGrid(t, c) {
      assert c in s.runs ==> RunOnGrid(s, c) && c.id in s.rows && RowFits(s, c.id, s.rows[c.id]);
    }
  }

  ghost predicate AlwaysBehind(s: System, acts: seq<Action>)
    requires ValidRun(s, acts)
    decreases |acts|
  {
    AllBehind(s) && (acts != [] ==> AlwaysBehind(Apply(s, acts[0]), acts[1..]))
  }

  ghost predicate ClocksInTime(s: System, acts: seq<Action>)
    requires ValidRun(s, acts)
    decreases |acts|
  {
    acts != [] ==> ClockInTime(s, acts[0]) && ClocksInTime(Apply(s, acts[0]), acts[1..])
  }

  /** Along any run whatever, every automation stays ahead of its fired slots all the way if and only if no
      writer that moves a slot has a clock behind a slot already fired for that automation. */
  lemma {:induction false} StaysBehindIff(s: System, acts: seq<Action>)
    requires Inv(s) && RunsOnGrid(s) && AllBehind(s) && ValidRun(s, acts)
    ensures AlwaysBehind(s, acts) <==> ClocksInTime(s, acts)
    decreases |acts|
  {
    if acts != [] {
      var t := Apply(s, acts[0]);
      StepStaysBehindIff(s, acts[0]);
      RunsStayOnGrid(s, acts[0]);
      DataKept(s, acts[0]);
      LogKept(s, acts[0]);
      ClaimsKept(s, acts[0]);
      if AllBehind(t) {
        StaysBehindIff(t, acts[1..]);
      }
    }
  }

  lemma {:induction false} AlwaysBehindAtEnd(s: System, acts: seq<Action>)
    requires ValidRun(s, acts) && AlwaysBehind(s, acts)
    ensures AllBehind(Run(s, acts))
    decreases |acts|
  {
    if acts != [] {
      AlwaysBehindAtEnd(Apply(s, acts[0]), acts[1..]);
    }
  }

  /** Safety without any restriction on resumes or on the number of workers: while no writer's clock lies
      behind a slot already fired for its automation, the slot shown next is never claimed and is later
      than every slot already fired, so no claim is ever lost. */
  lemma {:induction false} ClocksInTimeLoseNoClaim(acts: seq<Action>)
    requires ValidRun(Initial, acts) && ClocksInTime(Initial, acts)
    ensures var s := Run(Initial, acts);
            && (forall id :: id in s.rows && s.rows[id].next.Some? ==> Claim(id, s.rows[id].next.value) !in s.runs)
            && (forall i :: 0 <= i < |s.log| ==> Behind(s, s.log[i].claim))
  {
    StaysBehindIff(Initial, acts);
    AlwaysBehindAtEnd(Initial, acts);
    EveryRunKeepsInv(Initial, acts);
    ShownSlotsAreFree(Run(Initial, acts));
  }

  lemma {:induction false} ShownSlotsAreFree(s: System)
    requires Inv(s) && AllBehind(s)
    ensures forall id :: id in s.rows && s.rows[id].next.Some? ==> Claim(id, s.rows[id].next.value) !in s.runs
    ensures forall i :: 0 <= i < |s.log| ==> Behind(s, s.log[i].claim)
  {
    forall id | id in s.rows && s.rows[id].next.Some? ensures Claim(id, s.rows[id].next.value) !in s.runs {
      assert Claim(id, s.rows[id].next.value) in s.runs ==> Behind(s, Claim(id, s.rows[id].next.value));
    }
    forall i | 0 <= i < |s.log| ensures Behind(s, s.log[i].claim) {
      assert FiringFits(s, s.log[i]);
    }
  }

  lemma {:induction false} OrderlyStaysBehind(s: System, acts: seq<Action>)
    requires Inv(s) && Ahead(s) && OrderlyRun(s, acts)
    ensures ValidRun(s, acts) && AlwaysBehind(s, acts)
    decreases |acts|
  {
    if acts != [] {
      AheadKept(s, acts[0]);
      OrderlyStaysBehind(Apply(s, acts[0]), acts[1..]);
    }
  }

  /** The clock condition is the wider one: every orderly run meets it. */
  lemma {:induction false} OrderlyRunsAreInTime(acts: seq<Action>)
    requires OrderlyRun(Initial, acts)
    ensures ValidRun(Initial, acts) && ClocksInTime(Initial, acts)
  {
    OrderlyStaysBehind(Initial, acts);
    StaysBehindIff(Initial, acts);
  }

  // ---- What happens without that discipline ----

  ghost predicate SpentQueue(s: System, worker: Worker, id: AutomationId) {
    worker.Busy? ==> forall i :: 0 <= i < |worker.queue| && worker.queue[i].id == id ==>
      worker.queue[i].row.next.Some? && Claim(id, worker.queue[i].row.next.value) in s.runs
  }

  /** The table shows a slot that is already claimed, and every queued copy shows a claimed slot too. */
  ghost predicate Stuck(s: System, id: AutomationId) {
    && id in s.rows && s.rows[id].next.Some?
    && Claim(id, s.rows[id].next.value) in s.runs
    && forall w :: w in s.workers ==> SpentQueue(s, s.workers[w], id)
  }

  /** A user pauses, resumes or deletes this automation. */
  predicate Touches(s: System, a: Action, id: AutomationId) {
    match a
    case WriteToggle(q) => q in s.requests && s.requests[q].id == id
    case Delete(d) => d == id
    case _ => false
  }

  ghost predicate NeverTouched(s: System, acts: seq<Action>, id: AutomationId)
    requires ValidRun(s, acts)
    decreases |acts|
  {
    acts != [] ==> !Touches(s, acts[0], id) && NeverTouched(Apply(s, acts[0]), acts[1..], id)
  }

  lemma {:induction false} StuckStep(s: System, a: Action, id: AutomationId)
    requires Inv(s) && Enabled(s, a) && Stuck(s, id) && !Touches(s, a, id)
    ensures var t := Apply(s, a);
            && Stuck(t, id) && t.rows[id] == s.rows[id]
            && (t.log == s.log || (|t.log| == |s.log| + 1 && s.log < t.log && t.log[|s.log|].claim.id != id))
  {
    var t := Apply(s, a);
    if a.Commit? {
      assert HolderFits(s, a.worker);
      assert SpentQueue(s, WorkerOf(s, a.worker), id);
    }
    assert id in s.origins by { assert RowFits(s, id, s.rows[id]); }
    StuckQueues(s, a, id);
  }

  lemma {:induction false} StuckQueues(s: System, a: Action, id: AutomationId)
    requires Inv(s) && Enabled(s, a) && Stuck(s, id) && !Touches(s, a, id)
    ensures forall w :: w in Apply(s, a).workers ==> SpentQueue(Apply(s, a), Apply(s, a).workers[w], id)
  {
    var t := Apply(s, a);
    forall w | w in t.workers ensures SpentQueue(t, t.workers[w], id) {
      if a.OfWorker() && a.worker == w {
        assert SpentQueue(s, WorkerOf(s, w), id);
      } else {
        OtherWorkersUntouched(s, a, w);
      }
    }
  }

  /** A stuck automation never fires again by itself: until a user pauses, resumes or deletes it, nothing
      that workers and other users do changes its row or fires any slot of it. */
  lemma {:induction false} StuckStaysStuck(s: System, acts: seq<Action>, id: AutomationId)
    requires Inv(s) && Stuck(s, id) && ValidRun(s, acts) && NeverTouched(s, acts, id)
    ensures var t := Run(s, acts);
            && Stuck(t, id) && t.rows[id] == s.rows[id] && s.log <= t.log
            && forall i :: |s.log| <= i < |t.log| ==> t.log[i].claim.id != id
    decreases |acts|
  {
    if acts != [] {
      var t := Apply(s, acts[0]);
      StuckStep(s, acts[0], id);
      DataKept(s, acts[0]);
      LogKept(s, acts[0]);
      ClaimsKept(s, acts[0]);
      StuckStaysStuck(t, acts[1..], id);
    }
  }

  /** Appending one action to a run. */
  lemma {:induction false} RunThen(s: System, acts: seq<Action>, a: Action)
    requires ValidRun(s, acts) && Enabled(Run(s, acts), a)
    ensures ValidRun(s, acts + [a]) && Run(s, acts + [a]) == Apply(Run(s, acts), a)
    ensures OrderlyRun(s, acts + [a]) <==> OrderlyRun(s, acts) && Orderly(Run(s, acts), a)
    decreases |acts|
  {
    if acts == [] {
      assert (acts + [a])[1..] == [];
    } else {
      assert (acts + [a])[1..] == acts[1..] + [a];
      RunThen(Apply(s, acts[0]), acts[1..], a);
    }
  }

  const FirstRow: Row := NewRow(Daily, 0)
  const ResumedRow: Row := FirstRow.(next := Some(MICROS_PER_DAY))

  /** Worker 1 queues the row at its first slot; then a resume moves the row on by one day. */
  lemma {:induction false} StaleCopyIsKept() returns (acts: seq<Action>)
    ensures ValidRun(Initial, acts) && !OrderlyRun(Initial, acts)
    ensures var s := Run(Initial, acts);
            && s.rows == map[0 := ResumedRow] && s.runs == map[]
            && s.workers == map[1 := Busy(0, [Snap(0, FirstRow)], false)]
  {
    acts := [];
    RunThen(Initial, acts, Create(0, Daily, 0));
    acts := acts + [Create(0, Daily, 0)];
    assert Run(Initial, acts).rows == map[0 := FirstRow];
    RunThen(Initial, acts, Tick(1, 0, [0]));
    acts := acts + [Tick(1, 0, [0])];
    assert Run(Initial, acts).workers[1].queue == [Snap(0, FirstRow)];
    RunThen(Initial, acts, ReadForToggle(0, 0, true, 1));
    acts := acts + [ReadForToggle(0, 0, true, 1)];
    assert Queued(Run(Initial, acts), 1, 0) by {
      assert Snap(0, FirstRow) in Run(Initial, acts).workers[1].queue;
    }
    assert Toggled(FirstRow, true, 1) == ResumedRow;
    RunThen(Initial, acts, WriteToggle(0));
    acts := acts + [WriteToggle(0)];
  }

  ghost predicate BothQueued(s: System, holding: bool) {
    && s.rows == map[0 := ResumedRow] && s.runs == map[]
    && s.workers == map[1 := Busy(0, [Snap(0, FirstRow)], false),
                        2 := Busy(MICROS_PER_DAY, [Snap(0, ResumedRow)], holding)]
  }

  ghost predicate MovedSlotFired(s: System) {
    && 0 in s.rows && s.rows[0].enabled && s.rows[0].status.Active?
    && s.runs.Keys == {Claim(0, MICROS_PER_DAY)}
    && s.workers == map[1 := Busy(0, [Snap(0, FirstRow)], false), 2 := Busy(MICROS_PER_DAY, [], false)]
  }

  lemma {:induction false} WorkerTwoQueues(s: System)
    requires s.rows == map[0 := ResumedRow] && s.runs == map[]
    requires s.workers == map[1 := Busy(0, [Snap(0, FirstRow)], false)]
    ensures Enabled(s, Tick(2, MICROS_PER_DAY, [0])) && BothQueued(Apply(s, Tick(2, MICROS_PER_DAY, [0])), false)
  {
    assert Apply(s, Tick(2, MICROS_PER_DAY, [0])).workers[2].queue == [Snap(0, ResumedRow)];
  }

  lemma {:induction false} WorkerTwoClaims(s: System)
    requires BothQueued(s, false)
    ensures Enabled(s, TryClaim(2)) && BothQueued(Apply(s, TryClaim(2)), true)
  {
  }

  lemma {:induction false} WorkerTwoCommits(s: System)
    requires BothQueued(s, true)
    ensures Enabled(s, Commit(2, Rendered(""))) && MovedSlotFired(Apply(s, Commit(2, Rendered(""))))
  {
    assert Apply(s, Commit(2, Rendered(""))).workers[2].queue == [];
  }

  /** Worker 2 then fires the moved slot. */
  lemma {:induction false} OtherWorkerFires(before: seq<Action>) returns (acts: seq<Action>)
    requires ValidRun(Initial, before) && !OrderlyRun(Initial, before)
    requires var s := Run(Initial, before);
             && s.rows == map[0 := ResumedRow] && s.runs == map[]
             && s.workers == map[1 := Busy(0, [Snap(0, FirstRow)], false)]
    ensures ValidRun(Initial, acts) && !OrderlyRun(Initial, acts) && MovedSlotFired(Run(Initial, acts))
  {
    acts := before;
    WorkerTwoQueues(Run(Initial, acts));
    RunThen(Initial, acts, Tick(2, MICROS_PER_DAY, [0]));
    acts := acts + [Tick(2, MICROS_PER_DAY, [0])];
    WorkerTwoClaims(Run(Initial, acts));
    RunThen(Initial, acts, TryClaim(2));
    acts := acts + [TryClaim(2)];
    WorkerTwoCommits(Run(Initial, acts));
    RunThen(Initial, acts, Commit(2, Rendered("")));
    acts := acts + [Commit(2, Rendered(""))];
  }

  lemma {:induction false} WorkerOneClaims(s: System)
    requires MovedSlotFired(s)
    ensures Enabled(s, TryClaim(1))
    ensures Apply(s, TryClaim(1)) == s.(workers := s.workers[1 := Busy(0, [Snap(0, FirstRow)], true)])
  {
    assert HeadClaim(s, 1) == Claim(0, 0);
  }

  lemma {:induction false} WorkerOneCommits(s: System)
    requires MovedSlotFired(s.(workers := s.workers[1 := Busy(0, [Snap(0, FirstRow)], false)]))
    requires 1 in s.workers && s.workers[1] == Busy(0, [Snap(0, FirstRow)], true)
    ensures Enabled(s, Commit(1, Rendered("")))
    ensures Stuck(Apply(s, Commit(1, Rendered(""))), 0)
    ensures Due(Apply(s, Commit(1, Rendered(""))).rows[0], MICROS_PER_DAY)
  {
    assert Fired(FirstRow, 0, Rendered("")).next == Some(MICROS_PER_DAY);
    var t := Apply(s, Commit(1, Rendered("")));
    assert s.workers.Keys == s.workers[1 := Busy(0, [Snap(0, FirstRow)], false)].Keys == {1, 2};
    assert s.workers[2] == s.workers[1 := Busy(0, [Snap(0, FirstRow)], false)][2];
    assert t.workers[1].queue == [] && t.workers[2].queue == [];
    assert Claim(0, MICROS_PER_DAY) in s.runs;
  }

  /** The discipline is needed: worker 1 fires the old slot from its kept copy and so writes back a
      slot that worker 2 has fired. The automation is due at that slot and stuck. */
  lemma {:induction false} StaleCopyCanStick() returns (acts: seq<Action>)
    ensures ValidRun(Initial, acts) && !OrderlyRun(Initial, acts) && !ClocksInTime(Initial, acts)
    ensures Stuck(Run(Initial, acts), 0) && Due(Run(Initial, acts).rows[0], MICROS_PER_DAY)
  {
    acts := StaleCopyIsKept();
    acts := OtherWorkerFires(acts);
    WorkerOneClaims(Run(Initial, acts));
    RunThen(Initial, acts, TryClaim(1));
    acts := acts + [TryClaim(1)];
    assert Run(Initial, acts).workers[1 := Busy(0, [Snap(0, FirstRow)], false)]
        == map[1 := Busy(0, [Snap(0, FirstRow)], false), 2 := Busy(MICROS_PER_DAY, [], false)];
    WorkerOneCommits(Run(Initial, acts));
    RunThen(Initial, acts, Commit(1, Rendered("")));
    acts := acts + [Commit(1, Rendered(""))];
    StuckIsNotInTime(acts, 0);
  }

  lemma {:induction false} StuckIsNotBehind(s: System, id: AutomationId)
    requires Stuck(s, id)
    ensures !AllBehind(s)
  {
    assert !Behind(s, Claim(id, s.rows[id].next.value));
  }

  /** A run that ends with a stuck automation let some writer's clock fall behind. */
  lemma {:induction false} StuckIsNotInTime(acts: seq<Action>, id: AutomationId)
    requires ValidRun(Initial, acts) && Stuck(Run(Initial, acts), id)
    ensures !ClocksInTime(Initial, acts)
  {
    StuckIsNotBehind(Run(Initial, acts), id);
    StaysBehindIff(Initial, acts);
    if AlwaysBehind(Initial, acts) {
      AlwaysBehindAtEnd(Initial, acts);
    }
  }
}
