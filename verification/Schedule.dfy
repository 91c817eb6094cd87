/** Slot arithmetic of the automation scheduler. Instants are microseconds in UTC. */
module Schedule {
  import opened Wrappers

  const MICROS_PER_DAY: int := 86_400_000_000

  datatype Cadence = Once | Daily | Weekly

  function Period(c: Cadence): (p: int)
    requires !c.Once?
    ensures p > 0
  {
    if c.Daily? then MICROS_PER_DAY else 7 * MICROS_PER_DAY
  }

  /** The first slot of `c` strictly after `after`, reached in one jump from `anchor`. */
  function NextOccurrence(c: Cadence, after: int, anchor: int): Option<int> {
    if c.Once? then None
    else if anchor <= after then
      var missed := (after - anchor) / Period(c) + 1;
      Some(anchor + Period(c) * missed)
    else Some(anchor)
  }

  /** `slot` is the original run time plus a whole number of periods; a one-off has one slot. */
  ghost predicate OnGrid(c: Cadence, origin: int, slot: int) {
    slot == origin || (!c.Once? && exists k: nat :: slot == Slot(c, origin, k))
  }

  function Slot(c: Cadence, origin: int, k: nat): int
    requires !c.Once?
  {
    origin + k * Period(c)
  }

  /** The loop that the one-jump form replaces: one period at a time until past `after`. */
  function StepUntilAfter(c: Cadence, after: int, slot: int): int
    requires !c.Once?
    decreases after - slot
  {
    if slot > after then slot else StepUntilAfter(c, after, slot + Period(c))
  }

  lemma {:induction false} OnePeriodLess(c: Cadence, wait: int)
    requires !c.Once?
    ensures wait / Period(c) == (wait - Period(c)) / Period(c) + 1
  {
    if c.Daily? {
      assert wait / MICROS_PER_DAY == (wait - MICROS_PER_DAY) / MICROS_PER_DAY + 1;
    } else {
      assert wait / (7 * MICROS_PER_DAY) == (wait - 7 * MICROS_PER_DAY) / (7 * MICROS_PER_DAY) + 1;
    }
  }

  /** Starting one period later gives the same next slot. */
  lemma {:induction false} OneSlotLater(c: Cadence, after: int, anchor: int)
    requires !c.Once? && anchor <= after
    ensures NextOccurrence(c, after, anchor) == NextOccurrence(c, after, anchor + Period(c))
  {
    OnePeriodLess(c, after - anchor);
    if after < anchor + Period(c) {
      assert (after - anchor) / Period(c) == 0;
    }
  }

  lemma {:induction false} NextOccurrenceIsStepLoop(c: Cadence, after: int, anchor: int)
    requires !c.Once?
    ensures NextOccurrence(c, after, anchor) == Some(StepUntilAfter(c, after, anchor))
    decreases after - anchor
  {
    if anchor <= after {
      NextOccurrenceIsStepLoop(c, after, anchor + Period(c));
      OneSlotLater(c, after, anchor);
    }
  }

  /** Among all slots anchor + k periods, the result is the least one strictly after `after`. */
  lemma {:induction false} NextOccurrenceIsLeastSlot(c: Cadence, after: int, anchor: int)
    requires !c.Once?
    ensures var r := NextOccurrence(c, after, anchor);
            && r.Some?
            && r.value > after
            && (exists k: nat :: r.value == Slot(c, anchor, k))
            && (forall k: nat :: Slot(c, anchor, k) > after ==> r.value <= Slot(c, anchor, k))
  {
    var r := NextOccurrence(c, after, anchor);
    var jump: nat := if anchor <= after then (after - anchor) / Period(c) + 1 else 0;
    assert r.value == Slot(c, anchor, jump);
    assert jump > 0 ==> anchor + (jump - 1) * Period(c) <= after;
  }

  lemma {:induction false} StepLoopsCompose(c: Cadence, first: int, second: int, slot: int)
    requires !c.Once?
    ensures StepUntilAfter(c, second, StepUntilAfter(c, first, slot))
         == StepUntilAfter(c, if first <= second then second else first, slot)
    decreases first - slot
  {
    if slot <= first {
      StepLoopsCompose(c, first, second, slot + Period(c));
    }
  }

  /** Re-anchoring at a returned slot never loses the original grid, whatever the two clocks read. */
  lemma {:induction false} ReanchorOnce(c: Cadence, first: int, second: int, anchor: int)
    requires !c.Once?
    ensures var mid := NextOccurrence(c, first, anchor).value;
            var latest := if first <= second then second else first;
            NextOccurrence(c, second, mid) == NextOccurrence(c, latest, anchor)
  {
    NextOccurrenceIsStepLoop(c, first, anchor);
    NextOccurrenceIsStepLoop(c, second, StepUntilAfter(c, first, anchor));
    NextOccurrenceIsStepLoop(c, if first <= second then second else first, anchor);
    StepLoopsCompose(c, first, second, anchor);
  }

  /** The slot reached by firing at each of `times` in turn, each firing anchored at the last slot. */
  function Reanchored(c: Cadence, anchor: int, times: seq<int>): int
    requires !c.Once?
  {
    if times == [] then anchor
    else NextOccurrence(c, times[|times| - 1], Reanchored(c, anchor, times[..|times| - 1])).value
  }

  function Latest(times: seq<int>): (m: int)
    requires times != []
    ensures m in times && forall t :: t in times ==> t <= m
  {
    var last := times[|times| - 1];
    if |times| == 1 then last
    else
      var rest := Latest(times[..|times| - 1]);
      assert times == times[..|times| - 1] + [last];
      if rest <= last then last else rest
  }

  /** Schedules never drift: any history of firing times lands on the slot that the latest time
      gives from the original anchor. The times need not be sorted. */
  lemma {:induction false} SchedulesNeverDrift(c: Cadence, anchor: int, times: seq<int>)
    requires !c.Once? && times != []
    ensures Some(Reanchored(c, anchor, times)) == NextOccurrence(c, Latest(times), anchor)
  {
    var init, last := times[..|times| - 1], times[|times| - 1];
    if init != [] {
      SchedulesNeverDrift(c, anchor, init);
      ReanchorOnce(c, Latest(init), last, anchor);
    }
  }

  /** A next slot taken from a slot on the grid is on the grid, and later than both inputs. */
  lemma {:induction false} NextStaysOnGrid(c: Cadence, origin: int, after: int, slot: int)
    requires OnGrid(c, origin, slot) && slot <= after
    ensures var r := NextOccurrence(c, after, slot);
            && (r.None? <==> c.Once?)
            && (r.Some? ==> r.value > after && OnGrid(c, origin, r.value))
  {
    if !c.Once? {
      var k: nat :| slot == Slot(c, origin, k) || (slot == origin && k == 0);
      assert slot == Slot(c, origin, k);
      var jump: nat := (after - slot) / Period(c) + 1;
      NextOccurrenceIsLeastSlot(c, after, slot);
      assert NextOccurrence(c, after, slot).value == Slot(c, origin, k + jump) by {
        assert slot + Period(c) * jump == origin + (k + jump) * Period(c);
      }
    }
  }
}
