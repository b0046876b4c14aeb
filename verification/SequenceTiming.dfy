/** When a capture sequence sends its cycles: how early a cycle is dispatched, so that the cameras'
    action queues never overflow, and how the groups of one cycle are spread over the interval.
    Times are milliseconds; cycles and groups are counted as in the scheduler loop. */
module SequenceTiming {

  const CAMERA_MARGIN: int := 20

  function Max(a: int, b: int): int {
    if a < b then b else a
  }

  function Min(a: int, b: int): int {
    if a < b then a else b
  }

  function DispatchLead(configured: int, interval: int, queueSize: nat): int {
    var window := interval * Max(1, queueSize);
    var safe := if window > CAMERA_MARGIN then window - CAMERA_MARGIN else CAMERA_MARGIN;
    Max(CAMERA_MARGIN, Min(configured, safe))
  }

  function GroupOffset(interval: int, groups: nat, index: nat): int {
    if groups <= 1 || index == 0 || interval <= 0 then 0
    else Max(1, interval / groups) * index
  }

  /** Cycles are numbered from 1; the first target is at `first`. */
  function Target(first: int, interval: int, cycle: nat): int {
    first + interval * (cycle - 1)
  }

  // ---------- the camera's action queue ----------

  /** Dispatched at or after the scheduler's dispatch time, and not yet due. */
  predicate InQueue(first: int, interval: int, lead: int, dispatched: nat -> int, cycle: nat, now: int) {
    && cycle >= 1
    && Target(first, interval, cycle) - lead <= dispatched(cycle) <= now < Target(first, interval, cycle)
  }

  lemma LeadLeavesMargin(configured: int, interval: int, queueSize: nat)
    requires interval >= 100
    ensures CAMERA_MARGIN <= DispatchLead(configured, interval, queueSize)
                          <= interval * Max(1, queueSize) - CAMERA_MARGIN
    ensures configured >= CAMERA_MARGIN ==> DispatchLead(configured, interval, queueSize) <= configured
  {
    assert interval * Max(1, queueSize) >= interval by {
      MultiplesGrow(interval, 1, Max(1, queueSize));
    }
  }

  lemma MultiplesGrow(interval: int, a: int, b: int)
    requires interval >= 0 && a <= b
    ensures interval * a <= interval * b
  {
  }

  /** Two cycles that wait at the same time are less than a queue length apart. */
  lemma WaitingCyclesAreClose(
    first: int, interval: int, configured: int, queueSize: nat, dispatched: nat -> int, a: nat, b: nat, now: int)
    requires interval >= 100
    requires InQueue(first, interval, DispatchLead(configured, interval, queueSize), dispatched, a, now)
    requires InQueue(first, interval, DispatchLead(configured, interval, queueSize), dispatched, b, now)
    ensures b - a < Max(1, queueSize)
  {
    var depth := Max(1, queueSize);
    LeadLeavesMargin(configured, interval, queueSize);
    assert interval * (b - 1) - interval * (a - 1) == interval * (b - a);
    if b - a >= depth {
      MultiplesGrow(interval, depth, b - a);
    }
  }

  lemma {:induction false} BoundedSpread(cycles: set<nat>, low: nat, size: nat)
    requires forall c :: c in cycles ==> low <= c < low + size
    ensures |cycles| <= size
    decreases size
  {
    if cycles != {} {
      if size > 0 {
        var last := low + size - 1;
        BoundedSpread(cycles - {last}, low, size - 1);
        assert |cycles| <= |cycles - {last}| + 1;
      }
    }
  }

  /** The smallest cycle of a non-empty set. */
  lemma {:induction false} Smallest(cycles: set<nat>) returns (low: nat)
    requires cycles != {}
    ensures low in cycles && forall c :: c in cycles ==> low <= c
    decreases |cycles|
  {
    var c :| c in cycles;
    var rest := cycles - {c};
    if rest == {} {
      assert cycles == {c};
      return c;
    }
    var other := Smallest(rest);
    low := if other < c then other else c;
    assert forall x :: x in cycles ==> x == c || x in rest;
  }

  /** However long the sequence runs, at every instant at most one queue length of cycles is
      dispatched but not yet due. */
  lemma QueueNeverOverflows(
    first: int, interval: int, configured: int, queueSize: nat, dispatched: nat -> int, now: int, cycles: set<nat>)
    requires interval >= 100
    requires forall c :: c in cycles ==>
               InQueue(first, interval, DispatchLead(configured, interval, queueSize), dispatched, c, now)
    ensures |cycles| <= Max(1, queueSize)
  {
    if cycles != {} {
      var low := Smallest(cycles);
      forall c | c in cycles
        ensures low <= c < low + Max(1, queueSize)
      {
        WaitingCyclesAreClose(first, interval, configured, queueSize, dispatched, low, c, now);
      }
      BoundedSpread(cycles, low, Max(1, queueSize));
    }
  }

  /** The lead is the largest that neither exceeds the configured one nor leaves the queue less than the margin;
      only a configured lead below 20 ms is raised. */
  lemma LeadIsLargest(configured: int, interval: int, queueSize: nat, other: int)
    requires interval >= 100
    ensures var lead := DispatchLead(configured, interval, queueSize);
            && (CAMERA_MARGIN <= configured <= interval * Max(1, queueSize) - CAMERA_MARGIN ==> lead == configured)
            && (other <= Max(CAMERA_MARGIN, configured) && other <= interval * Max(1, queueSize) - CAMERA_MARGIN ==>
                  other <= lead)
  {
    LeadLeavesMargin(configured, interval, queueSize);
  }

  /** All of these cycles wait at the same time. */
  predicate AllWait(first: int, interval: int, lead: int, dispatched: nat -> int, now: int, cycles: set<nat>) {
    forall c :: c in cycles ==> InQueue(first, interval, lead, dispatched, c, now)
  }

  /** No more cycles wait than the queue holds, whenever the scheduler gets to dispatch them. */
  ghost predicate NeverOverflows(first: int, interval: int, lead: int, queueSize: nat) {
    forall dispatched: nat -> int, now: int, cycles: set<nat> ::
      AllWait(first, interval, lead, dispatched, now, cycles) ==> |cycles| <= Max(1, queueSize)
  }

  function UpTo(n: nat): (cycles: set<nat>)
    ensures |cycles| == n && forall c: nat :: c in cycles <==> 1 <= c <= n
  {
    if n == 0 then {} else UpTo(n - 1) + {n}
  }

  /** With a lead longer than the queue lasts, one cycle more than it holds is dispatched before the first is due. */
  lemma LongLeadOverflows(first: int, interval: int, lead: int, queueSize: nat)
    requires interval >= 1 && lead > interval * Max(1, queueSize)
    ensures !NeverOverflows(first, interval, lead, queueSize)
  {
    var depth := Max(1, queueSize);
    var dispatched := (c: nat) => Target(first, interval, c) - lead;
    var cycles := UpTo(depth + 1);
    forall c | c in cycles
      ensures InQueue(first, interval, lead, dispatched, c, first - 1)
    {
      EarlyCycle(first, interval, lead, depth, c);
    }
    assert AllWait(first, interval, lead, dispatched, first - 1, cycles);
  }

  lemma EarlyCycle(first: int, interval: int, lead: int, depth: int, cycle: nat)
    requires interval >= 1 && lead > interval * depth && 1 <= cycle <= depth + 1
    ensures Target(first, interval, cycle) - lead <= first - 1 < Target(first, interval, cycle)
  {
    MultiplesGrow(interval, 0, cycle - 1);
    MultiplesGrow(interval, cycle - 1, depth);
  }

  lemma ShortLeadFits(first: int, interval: int, lead: int, queueSize: nat, dispatched: nat -> int, now: int,
                      cycles: set<nat>)
    requires interval >= 1 && lead <= interval * Max(1, queueSize)
    requires AllWait(first, interval, lead, dispatched, now, cycles)
    ensures |cycles| <= Max(1, queueSize)
  {
    var depth := Max(1, queueSize);
    if cycles != {} {
      var low := Smallest(cycles);
      forall c | c in cycles
        ensures low <= c < low + depth
      {
        assert interval * (c - 1) - interval * (low - 1) == interval * (c - low);
        if c - low >= depth {
          MultiplesGrow(interval, depth, c - low);
        }
      }
      BoundedSpread(cycles, low, depth);
    }
  }

  /** A lead keeps the queue from overflowing if and only if it is no longer than the queue lasts; the lead in use
      stays 20 ms below that. */
  lemma QueueBoundIsExact(first: int, interval: int, lead: int, queueSize: nat)
    requires interval >= 1
    ensures NeverOverflows(first, interval, lead, queueSize) <==> lead <= interval * Max(1, queueSize)
  {
    if lead <= interval * Max(1, queueSize) {
      forall dispatched: nat -> int, now: int, cycles: set<nat> | AllWait(first, interval, lead, dispatched, now, cycles)
        ensures |cycles| <= Max(1, queueSize)
      {
        ShortLeadFits(first, interval, lead, queueSize, dispatched, now, cycles);
      }
    } else {
      LongLeadOverflows(first, interval, lead, queueSize);
    }
  }

  // ---------- phases of a multi-group sequence ----------

  function GroupTarget(first: int, interval: int, groups: nat, cycle: nat, index: nat): int {
    Target(first, interval, cycle) + GroupOffset(interval, groups, index)
  }

  function Distance(a: int, b: int): int {
    if a < b then b - a else a - b
  }

  lemma PhaseBounds(interval: int, groups: nat, index: nat)
    requires groups >= 1 && interval >= groups && index < groups
    ensures interval / groups >= 1 && (interval / groups) * groups <= interval
    ensures GroupOffset(interval, groups, index) == (interval / groups) * index
    ensures 0 <= GroupOffset(interval, groups, index) <= interval - interval / groups
  {
    var phase := interval / groups;
    assert phase * groups <= interval;
    MultiplesGrow(phase, 0, index);
    MultiplesGrow(phase, index, groups - 1);
    assert phase * (groups - 1) == phase * groups - phase;
  }

  /** The targets of a phased sequence, over all cycles and groups, are pairwise at least one phase
      apart when the interval offers a millisecond for every group. */
  lemma PhasedTargetsAreApart(
    first: int, interval: int, groups: nat, cycle: nat, index: nat, cycle': nat, index': nat)
    requires groups >= 1 && interval >= groups && index < groups && index' < groups
    requires cycle < cycle' || (cycle == cycle' && index < index')
    ensures GroupTarget(first, interval, groups, cycle', index') - GroupTarget(first, interval, groups, cycle, index)
         >= interval / groups
  {
    var phase := interval / groups;
    PhaseBounds(interval, groups, index);
    PhaseBounds(interval, groups, index');
    if cycle < cycle' {
      MultiplesGrow(interval, 1, cycle' - cycle);
      assert interval * (cycle' - 1) - interval * (cycle - 1) == interval * (cycle' - cycle);
    } else {
      MultiplesGrow(phase, 1, index' - index);
      assert phase * index' - phase * index == phase * (index' - index);
    }
  }

  /** The first cycle starts at the given time, cycles follow at the interval, and every group of a cycle acts
      before the next cycle starts. */
  lemma CyclesFollowAtInterval(first: int, interval: int, groups: nat, cycle: nat, index: nat)
    requires groups >= 1 && interval >= groups && index < groups && cycle >= 1
    ensures GroupTarget(first, interval, groups, 1, 0) == first
    ensures GroupTarget(first, interval, groups, cycle + 1, 0) == GroupTarget(first, interval, groups, cycle, 0) + interval
    ensures GroupTarget(first, interval, groups, cycle, 0) <= GroupTarget(first, interval, groups, cycle, index)
          < GroupTarget(first, interval, groups, cycle + 1, 0)
  {
    PhaseBounds(interval, groups, index);
    assert interval * cycle == interval * (cycle - 1) + interval;
  }

  ghost predicate AllDistinct(first: int, interval: int, groups: nat) {
    forall cycle: nat, index: nat, cycle': nat, index': nat ::
      index < groups && index' < groups && (cycle < cycle' || (cycle == cycle' && index < index')) ==>
        GroupTarget(first, interval, groups, cycle, index) != GroupTarget(first, interval, groups, cycle', index')
  }

  /** That condition is exact: a shorter interval makes a group of one cycle coincide with the first
      group of the next. */
  lemma PhasesDistinctIffIntervalLongEnough(first: int, interval: int, groups: nat)
    requires groups >= 1 && interval >= 1
    ensures AllDistinct(first, interval, groups) <==> interval >= groups
  {
    if interval >= groups {
      forall cycle: nat, index: nat, cycle': nat, index': nat |
        index < groups && index' < groups && (cycle < cycle' || (cycle == cycle' && index < index'))
        ensures GroupTarget(first, interval, groups, cycle, index) != GroupTarget(first, interval, groups, cycle', index')
      {
        PhasedTargetsAreApart(first, interval, groups, cycle, index, cycle', index');
        PhaseBounds(interval, groups, index);
      }
    } else {
      assert interval / groups == 0;
      assert GroupOffset(interval, groups, interval) == interval;
      assert GroupTarget(first, interval, groups, 1, interval) == GroupTarget(first, interval, groups, 2, 0);
    }
  }
}
