/** One capture operation of the recorder: cycles fan out into goals, goals report in any order, and
    the operation drains to a terminal state. The code's fields are an `Operation`; a `Case` adds what
    the world knows about it: the goals still out, the reports received and the leases given back. */
module CaptureOperations {

  import opened Numerals

  datatype Status = Waiting | Preparing | Running | Draining | Complete | Failed | Cancelled

  predicate Terminal(status: Status) {
    status.Complete? || status.Failed? || status.Cancelled?
  }

  datatype Kind = Batch | Sequence | TestShot

  /** The capture identifiers an operation still shows, how many there ever were, and whether some are
      no longer shown. */
  datatype CaptureIds = CaptureIds(shown: seq<string>, count: nat, truncated: bool)

  datatype Counters = Counters(
    scheduled: nat,
    completed: nat,
    failed: nat,
    pending: nat,                // pending saves
    results: map<nat, nat>,      // of cycles still open
    failures: map<nat, nat>)

  datatype Setup = Setup(
    kind: Kind,
    prefix: string,
    groups: seq<string>,
    expected: nat,               // goals per cycle
    requested: nat)              // cycles; 0 is unbounded

  datatype Flags = Flags(
    status: Status,
    stop: bool,                  // stop_scheduling
    cancelled: bool,             // cancelled_by_user
    schedulingDone: bool,
    recorded: bool,              // terminal_recorded
    released: bool)              // session_released

  datatype Operation = Operation(setup: Setup, flags: Flags, counts: Counters, captures: CaptureIds)

  /** `outstanding`, `good` and `bad` hold a cycle once for every goal of it still out, reported as saved
      or reported as lost. */
  datatype Case = Case(
    op: Operation,
    outstanding: multiset<nat>,
    good: multiset<nat>,
    bad: multiset<nat>,
    releases: nat,               // leases given back
    cancels: bool,               // a cancellation was accepted
    halts: bool,                 // something else called scheduling off
    lost: bool)                  // the action servers never came up

  function Created(setup: Setup): Case {
    var flags := Flags(if setup.kind.Sequence? then Preparing else Waiting, false, false, false, false, false);
    Case(Operation(setup, flags, Counters(0, 0, 0, 0, map[], map[]), CaptureIds([], 0, false)),
         multiset{}, multiset{}, multiset{}, 0, false, false, false)
  }

  /** A request with no group is refused before it becomes an operation; a test shot is one cycle of one
      goal. */
  predicate Proper(setup: Setup) {
    if setup.kind.TestShot? then setup.requested == 1 && setup.expected == 1
    else setup.groups != [] && setup.expected == |setup.groups|
  }

  // ---------- capture identifiers ----------

  predicate SafeCharacter(c: char) {
    'a' <= c <= 'z' || 'A' <= c <= 'Z' || '0' <= c <= '9' || c == '_' || c == '-' || c == '.'
  }

  predicate SafeIdentifier(id: string) {
    id != "" && |id| <= 128 && forall c :: c in id ==> SafeCharacter(c)
  }

  function CaptureId(prefix: string, cycle: nat, group: string): string {
    prefix + "_" + Decimal(cycle) + "_" + group
  }

  function CycleIds(prefix: string, cycle: nat, groups: seq<string>): (ids: seq<string>)
    ensures |ids| == |groups|
  {
    seq(|groups|, i requires 0 <= i < |groups| => CaptureId(prefix, cycle, groups[i]))
  }

  predicate AllSafe(ids: seq<string>) {
    forall i :: 0 <= i < |ids| ==> SafeIdentifier(ids[i])
  }

  /** Every identifier the operation has given out in its first `cycles` cycles, in order. */
  function IdsThrough(kind: Kind, prefix: string, groups: seq<string>, cycles: nat): seq<string>
    decreases cycles
  {
    if cycles == 0 then []
    else IdsThrough(kind, prefix, groups, cycles - 1) +
         if kind.TestShot? then [prefix] else CycleIds(prefix, cycles, groups)
  }

  function Last<T>(s: seq<T>, n: nat): seq<T> {
    if |s| <= n then s else s[|s| - n..]
  }

  function Append(c: CaptureIds, id: string, limit: nat): CaptureIds {
    var shown := Last(c.shown + [id], limit);
    CaptureIds(shown, c.count + 1, c.count + 1 > |shown|)
  }

  function AppendAll(c: CaptureIds, ids: seq<string>, limit: nat): CaptureIds {
    if ids == [] then c else Append(AppendAll(c, ids[..|ids| - 1], limit), ids[|ids| - 1], limit)
  }

  predicate Shows(c: CaptureIds, all: seq<string>, limit: nat) {
    c == CaptureIds(Last(all, limit), |all|, |all| > limit)
  }

  /** Appending one at a time and trimming each time shows exactly the newest of everything given out. */
  lemma {:induction false} AppendShowsNewest(c: CaptureIds, all: seq<string>, ids: seq<string>, limit: nat)
    requires Shows(c, all, limit)
    ensures Shows(AppendAll(c, ids, limit), all + ids, limit)
  {
    if ids == [] {
      assert all + ids == all;
    } else {
      var front, id := ids[..|ids| - 1], ids[|ids| - 1];
      AppendShowsNewest(c, all, front, limit);
      var before := all + front;
      assert all + ids == before + [id];
      assert Last(Last(before, limit) + [id], limit) == Last(before + [id], limit);
    }
  }

  // ---------- the operation's own steps ----------

  function Bump(m: map<nat, nat>, k: nat): map<nat, nat> {
    m[k := if k in m then m[k] + 1 else 1]
  }

  function Recorded(f: Flags): Flags {
    if f.recorded || !Terminal(f.status) then f else f.(recorded := true, released := true)
  }

  function Finished(f: Flags, failed: nat): Flags {
    Recorded(f.(status := if f.stop then (if f.cancelled then Cancelled else Failed)
                          else if failed != 0 then Failed else Complete))
  }

  function FinishedIfDrained(f: Flags, n: Counters): Flags {
    if f.schedulingDone && n.pending == 0 then Finished(f, n.failed) else f
  }

  function Dispatched(o: Operation, idLimit: nat): Operation {
    var ids := CycleIds(o.setup.prefix, o.counts.scheduled + 1, o.setup.groups);
    if !AllSafe(ids) then o.(flags := o.flags.(stop := true, status := Failed))
    else
      var counts := o.counts.(pending := o.counts.pending + |ids|, scheduled := o.counts.scheduled + 1);
      Operation(o.setup, o.flags.(status := Running), counts, AppendAll(o.captures, ids, idLimit))
  }

  predicate Closes(n: Counters, expected: nat, cycle: nat) {
    Bump(n.results, cycle)[cycle] == expected
  }

  predicate Clean(n: Counters, cycle: nat, success: bool) {
    var failures := if success then n.failures else Bump(n.failures, cycle);
    cycle !in failures || failures[cycle] == 0
  }

  /** One result of a cycle: the last one closes it, as completed or, if any of its goals failed, failed. */
  function Count(n: Counters, expected: nat, cycle: nat, success: bool): Counters {
    var results := Bump(n.results, cycle);
    var failures := if success then n.failures else Bump(n.failures, cycle);
    var closes := Closes(n, expected, cycle);
    Counters(n.scheduled,
             n.completed + if closes && Clean(n, cycle, success) then 1 else 0,
             n.failed + if closes && !Clean(n, cycle, success) then 1 else 0,
             if n.pending != 0 then n.pending - 1 else 0,
             if closes then results - {cycle} else results,
             if closes then failures - {cycle} else failures)
  }

  function ResultFlags(f: Flags, counts: Counters, success: bool): Flags {
    FinishedIfDrained(f.(stop := f.stop || !success), counts)
  }

  function Reported(o: Operation, cycle: nat, success: bool): Operation {
    var counts := Count(o.counts, o.setup.expected, cycle, success);
    Operation(o.setup, ResultFlags(o.flags, counts, success), counts, o.captures)
  }

  function SchedulingEnded(f: Flags, n: Counters): Flags {
    var next := f.(schedulingDone := true);
    if n.pending == 0 then Finished(next, n.failed)
    else if !f.stop then next.(status := Draining) else next
  }

  function CancelRequested(f: Flags, n: Counters): Flags {
    if f.schedulingDone && n.pending == 0 then f
    else f.(stop := true, cancelled := true, status := if n.pending == 0 then Cancelled else Draining)
  }

  function PreparationFailed(f: Flags): Flags {
    Recorded(f.(stop := true, schedulingDone := true, status := if f.cancelled then Cancelled else Failed))
  }

  function ServerUnavailable(f: Flags): Flags {
    Recorded(f.(stop := true, schedulingDone := true, status := Failed))
  }

  function TestShotLaunched(o: Operation, idLimit: nat): Operation {
    Operation(o.setup, o.flags.(status := Preparing, schedulingDone := true),
              o.counts.(scheduled := 1, pending := 1), Append(o.captures, o.setup.prefix, idLimit))
  }

  // ---------- the operation among its goals ----------

  datatype Event =
    | Dispatch
    | LaunchTestShot
    | Result(cycle: nat, success: bool)
    | EndScheduling
    | Cancel
    | ExpireSession
    | StopAtCapacity
    | FailPreparation
    | LoseServer

  predicate MoreCycles(o: Operation) {
    !o.flags.schedulingDone && !o.flags.stop && (o.setup.requested == 0 || o.counts.scheduled < o.setup.requested)
  }

  /** What can happen next: the scheduler follows its loop, and a goal reports once. */
  predicate Enabled(c: Case, e: Event) {
    var o := c.op;
    match e
    case Dispatch => !o.setup.kind.TestShot? && MoreCycles(o)
    case LaunchTestShot => o.setup.kind.TestShot? && !o.flags.schedulingDone
    case Result(cycle, _) => cycle in c.outstanding
    case EndScheduling => !o.setup.kind.TestShot? && !o.flags.schedulingDone && !MoreCycles(o)
    case Cancel => true
    case ExpireSession => !o.setup.kind.TestShot? && MoreCycles(o)
    case StopAtCapacity => !o.setup.kind.TestShot? && MoreCycles(o)
    case FailPreparation => !o.flags.schedulingDone && o.counts.scheduled == 0
    case LoseServer => !o.setup.kind.TestShot? && !o.flags.schedulingDone && o.counts.scheduled == 0
  }

  /** What a step other than a dispatch or a result does: it only moves the flags. */
  function FlagStep(f: Flags, n: Counters, e: Event): Flags {
    match e
    case EndScheduling => SchedulingEnded(f, n)
    case Cancel => CancelRequested(f, n)
    case ExpireSession => f.(stop := true)
    case StopAtCapacity => f.(stop := true, status := Draining)
    case FailPreparation => PreparationFailed(f)
    case LoseServer => ServerUnavailable(f)
    case _ => f
  }

  function OpStep(o: Operation, e: Event, idLimit: nat): Operation {
    match e
    case Dispatch => Dispatched(o, idLimit)
    case LaunchTestShot => TestShotLaunched(o, idLimit)
    case Result(cycle, success) => Reported(o, cycle, success)
    case _ => o.(flags := FlagStep(o.flags, o.counts, e))
  }

  predicate CallsOff(o: Operation, e: Event) {
    || e.ExpireSession? || e.StopAtCapacity? || e.FailPreparation? || e.LoseServer?
    || (e.Dispatch? && !AllSafe(CycleIds(o.setup.prefix, o.counts.scheduled + 1, o.setup.groups)))
  }

  /** The world's side of a step that took the operation to `o`. */
  function Follow(c: Case, o: Operation, e: Event): Case {
    Case(o,
         if o.counts.scheduled > c.op.counts.scheduled then c.outstanding[o.counts.scheduled := o.setup.expected]
         else if e.Result? then c.outstanding - multiset{e.cycle} else c.outstanding,
         if e.Result? && e.success then c.good + multiset{e.cycle} else c.good,
         if e.Result? && !e.success then c.bad + multiset{e.cycle} else c.bad,
         c.releases + if o.flags.released && !c.op.flags.released then 1 else 0,
         c.cancels || (e.Cancel? && !(c.op.flags.schedulingDone && c.op.counts.pending == 0)),
         c.halts || CallsOff(c.op, e),
         c.lost || e.LoseServer?)
  }

  function Step(c: Case, e: Event, idLimit: nat): Case {
    Follow(c, OpStep(c.op, e, idLimit), e)
  }

  // ---------- what every step keeps ----------

  function Heard(c: Case, cycle: nat): nat {
    c.good[cycle] + c.bad[cycle]
  }

  predicate Out(c: Case, cycle: nat) { 1 <= cycle <= c.op.counts.scheduled && c.outstanding[cycle] > 0 }

  predicate Saved(c: Case, cycle: nat) {
    1 <= cycle <= c.op.counts.scheduled && c.outstanding[cycle] == 0 && c.bad[cycle] == 0
  }

  predicate Lost(c: Case, cycle: nat) {
    1 <= cycle <= c.op.counts.scheduled && c.outstanding[cycle] == 0 && c.bad[cycle] > 0
  }

  function OpenCycles(c: Case): set<nat> { set k: nat | 1 <= k <= c.op.counts.scheduled && Out(c, k) }
  function SavedCycles(c: Case): set<nat> { set k: nat | 1 <= k <= c.op.counts.scheduled && Saved(c, k) }
  function LostCycles(c: Case): set<nat> { set k: nat | 1 <= k <= c.op.counts.scheduled && Lost(c, k) }

  ghost predicate Goals(c: Case) {
    && c.op.setup.expected > 0
    && (forall k: nat :: 1 <= k <= c.op.counts.scheduled ==> c.outstanding[k] + Heard(c, k) == c.op.setup.expected)
    && (forall k: nat :: !(1 <= k <= c.op.counts.scheduled) ==> c.outstanding[k] == 0 && Heard(c, k) == 0)
    && c.op.counts.pending == |c.outstanding|
  }

  ghost predicate ResultTable(c: Case) {
    && (forall k: nat :: k in c.op.counts.results <==> Out(c, k) && Heard(c, k) > 0)
    && (forall k :: k in c.op.counts.results ==> c.op.counts.results[k] == Heard(c, k))
  }

  ghost predicate FailureTable(c: Case) {
    && (forall k: nat :: k in c.op.counts.failures <==> Out(c, k) && c.bad[k] > 0)
    && (forall k :: k in c.op.counts.failures ==> c.op.counts.failures[k] == c.bad[k])
  }

  ghost predicate Tables(c: Case) {
    ResultTable(c) && FailureTable(c)
  }

  ghost predicate Tallies(c: Case) {
    c.op.counts.completed == |SavedCycles(c)| && c.op.counts.failed == |LostCycles(c)|
  }

  function FinalStatus(f: Flags): Status {
    if !f.stop then Complete else if f.cancelled then Cancelled else Failed
  }

  predicate Judged(f: Flags, lost: bool, pending: nat, releases: nat) {
    && (f.cancelled ==> f.stop)
    && (f.recorded <==> f.schedulingDone && pending == 0)
    && f.released == f.recorded && releases == (if f.recorded then 1 else 0)
    && (f.recorded ==> Terminal(f.status) && (f.status == Complete <==> !f.stop))
    && (f.status == Complete ==> f.recorded)
    && (lost ==> f.recorded && f.stop)
    && (f.recorded ==> f.status == if lost then Failed else FinalStatus(f))
  }

  /** Scheduling is stopped exactly for a cancellation, a lost goal or another reason to call it off. */
  predicate Explained(c: Case) {
    && (c.op.flags.cancelled <==> c.cancels)
    && (c.op.flags.stop <==> c.cancels || c.halts || c.bad != multiset{})
  }

  predicate Paced(s: Setup, f: Flags, scheduled: nat) {
    && Proper(s)
    && (s.requested != 0 ==> scheduled <= s.requested)
    && (f.schedulingDone && !f.stop ==> scheduled == s.requested != 0)
    && (s.kind.TestShot? ==> scheduled == 0 || f.schedulingDone)
  }

  ghost predicate Verdict(c: Case) {
    && (forall k: nat :: c.bad[k] > 0 ==> c.op.flags.stop)
    && Judged(c.op.flags, c.lost, c.op.counts.pending, c.releases)
    && Paced(c.op.setup, c.op.flags, c.op.counts.scheduled)
  }

  ghost predicate Identifiers(c: Case, idLimit: nat) {
    Shows(c.op.captures, IdsThrough(c.op.setup.kind, c.op.setup.prefix, c.op.setup.groups, c.op.counts.scheduled), idLimit)
  }

  ghost predicate Inv(c: Case, idLimit: nat) {
    Goals(c) && Tables(c) && Tallies(c) && Verdict(c) && Explained(c) && Identifiers(c, idLimit)
  }

  /** Steps that leave the counters, the goals and the reports alone keep what is said about them. */
  predicate SameCounts(c: Case, d: Case) {
    && d.outstanding == c.outstanding && d.good == c.good && d.bad == c.bad
    && d.op.setup == c.op.setup && d.op.counts == c.op.counts && d.op.captures == c.op.captures
  }

  lemma CountsKept(c: Case, d: Case, idLimit: nat)
    requires SameCounts(c, d) && Goals(c) && Tables(c) && Tallies(c) && Identifiers(c, idLimit)
    ensures Goals(d) && Tables(d) && Tallies(d) && Identifiers(d, idLimit)
  {
    assert forall k: nat :: Out(d, k) <==> Out(c, k);
    assert SavedCycles(d) == SavedCycles(c);
    assert LostCycles(d) == LostCycles(c);
  }

  lemma CreatedHolds(setup: Setup, idLimit: nat)
    requires Proper(setup)
    ensures Inv(Created(setup), idLimit)
  {
    assert SavedCycles(Created(setup)) == {} && LostCycles(Created(setup)) == {};
  }

  /** The goals of one more cycle are out. */
  predicate SentCycle(c: Case, d: Case) {
    && d.op.counts.scheduled == c.op.counts.scheduled + 1
    && d.outstanding == c.outstanding[d.op.counts.scheduled := c.op.setup.expected]
    && d.good == c.good && d.bad == c.bad && d.op.setup.expected == c.op.setup.expected
    && d.op.counts == c.op.counts.(scheduled := d.op.counts.scheduled, pending := c.op.counts.pending + c.op.setup.expected)
  }

  lemma SentGoals(c: Case, d: Case)
    requires Goals(c) && SentCycle(c, d)
    ensures Goals(d)
  {
    assert forall k: nat :: Heard(d, k) == Heard(c, k);
  }

  lemma SentTables(c: Case, d: Case)
    requires Goals(c) && Tables(c) && SentCycle(c, d)
    ensures Tables(d)
  {
    assert forall k: nat :: Heard(d, k) == Heard(c, k);
    assert forall k: nat :: k != d.op.counts.scheduled ==> (Out(d, k) <==> Out(c, k));
  }

  /** A cycle that has just gone out is open, and changes no other cycle. */
  lemma SentTallies(c: Case, d: Case)
    requires Goals(c) && Tallies(c) && SentCycle(c, d)
    ensures Tallies(d)
  {
    assert forall k: nat :: (Saved(d, k) <==> Saved(c, k)) && (Lost(d, k) <==> Lost(c, k));
    assert SavedCycles(d) == SavedCycles(c);
    assert LostCycles(d) == LostCycles(c);
  }

  lemma StepExplained(c: Case, e: Event, idLimit: nat)
    requires Explained(c) && Enabled(c, e) && !e.Result?
    ensures Explained(Step(c, e, idLimit))
  {
  }

  lemma DispatchKeeps(c: Case, idLimit: nat)
    requires Inv(c, idLimit) && Enabled(c, Dispatch)
    ensures Inv(Step(c, Dispatch, idLimit), idLimit)
  {
    var d := Step(c, Dispatch, idLimit);
    StepExplained(c, Dispatch, idLimit);
    var ids := CycleIds(c.op.setup.prefix, c.op.counts.scheduled + 1, c.op.setup.groups);
    if AllSafe(ids) {
      SentGoals(c, d);
      SentTables(c, d);
      SentTallies(c, d);
      var given := IdsThrough(c.op.setup.kind, c.op.setup.prefix, c.op.setup.groups, c.op.counts.scheduled);
      AppendShowsNewest(c.op.captures, given, ids, idLimit);
    } else {
      CountsKept(c, d, idLimit);
    }
  }

  lemma LaunchKeeps(c: Case, idLimit: nat)
    requires Inv(c, idLimit) && Enabled(c, LaunchTestShot)
    ensures Inv(Step(c, LaunchTestShot, idLimit), idLimit)
  {
    var d := Step(c, LaunchTestShot, idLimit);
    StepExplained(c, LaunchTestShot, idLimit);
    NothingOutBeforeTheFirstCycle(c);
    SentGoals(c, d);
    SentTables(c, d);
    SentTallies(c, d);
    assert AppendAll(c.op.captures, [], idLimit) == c.op.captures;
    assert AppendAll(c.op.captures, [c.op.setup.prefix], idLimit) == d.op.captures;
    AppendShowsNewest(c.op.captures, [], [c.op.setup.prefix], idLimit);
  }

  /** One goal has reported. */
  predicate HeardGoal(c: Case, d: Case, cycle: nat, success: bool) {
    && cycle in c.outstanding && d.outstanding == c.outstanding - multiset{cycle}
    && d.good == (if success then c.good + multiset{cycle} else c.good)
    && d.bad == (if success then c.bad else c.bad + multiset{cycle})
    && d.op.counts.scheduled == c.op.counts.scheduled && d.op.setup.expected == c.op.setup.expected
  }

  /** The same, goal by goal. */
  ghost predicate OneMore(c: Case, d: Case, cycle: nat, success: bool) {
    && c.outstanding[cycle] > 0 && d.op.counts.scheduled == c.op.counts.scheduled
    && d.op.setup.expected == c.op.setup.expected
    && (forall k: nat :: k != cycle ==> d.outstanding[k] == c.outstanding[k])
    && (forall k: nat :: k != cycle ==> d.bad[k] == c.bad[k])
    && (forall k: nat :: k != cycle ==> Heard(d, k) == Heard(c, k))
    && d.outstanding[cycle] == c.outstanding[cycle] - 1
    && Heard(d, cycle) == Heard(c, cycle) + 1
    && d.bad[cycle] == c.bad[cycle] + if success then 0 else 1
  }

  lemma HeardOneMore(c: Case, d: Case, cycle: nat, success: bool)
    requires HeardGoal(c, d, cycle, success)
    ensures OneMore(c, d, cycle, success)
  {
  }

  lemma HeardGoals(c: Case, d: Case, cycle: nat, success: bool)
    requires Goals(c) && OneMore(c, d, cycle, success) && d.outstanding == c.outstanding - multiset{cycle}
    requires d.op.counts.pending == if c.op.counts.pending != 0 then c.op.counts.pending - 1 else 0
    ensures Goals(d) && c.op.counts.pending > 0
  {
    assert 1 <= cycle <= c.op.counts.scheduled;
  }

  /** The tables tell the last result of a cycle, and whether any of its goals failed. */
  lemma TablesTell(c: Case, d: Case, cycle: nat, success: bool)
    requires Goals(c) && Tables(c) && OneMore(c, d, cycle, success)
    ensures Out(c, cycle)
    ensures Closes(c.op.counts, c.op.setup.expected, cycle) <==> !Out(d, cycle)
    ensures Clean(c.op.counts, cycle, success) <==> d.bad[cycle] == 0
    ensures Bump(c.op.counts.results, cycle)[cycle] == Heard(d, cycle)
    ensures Bump(c.op.counts.failures, cycle)[cycle] == c.bad[cycle] + 1
    ensures Out(d, cycle) <==> Heard(d, cycle) != c.op.setup.expected
  {
    assert 1 <= cycle <= c.op.counts.scheduled;
    assert Out(c, cycle);
  }

  lemma HeardResultTable(c: Case, d: Case, cycle: nat, success: bool)
    requires ResultTable(c) && OneMore(c, d, cycle, success) && Out(c, cycle)
    requires var r := Bump(c.op.counts.results, cycle);
             r[cycle] == Heard(d, cycle) && d.op.counts.results == if Out(d, cycle) then r else r - {cycle}
    ensures ResultTable(d)
  {
    assert forall k: nat :: k != cycle ==> (Out(d, k) <==> Out(c, k));
  }

  lemma HeardFailureTable(c: Case, d: Case, cycle: nat, success: bool)
    requires FailureTable(c) && OneMore(c, d, cycle, success) && Out(c, cycle)
    requires var f := if success then c.op.counts.failures else Bump(c.op.counts.failures, cycle);
             d.op.counts.failures == if Out(d, cycle) then f else f - {cycle}
    ensures FailureTable(d)
  {
    assert forall k: nat :: k != cycle ==> (Out(d, k) <==> Out(c, k));
  }

  /** Only the cycle that was heard of can change sides. */
  lemma HeardCycles(c: Case, d: Case, cycle: nat, success: bool)
    requires OneMore(c, d, cycle, success) && Out(c, cycle)
    ensures SavedCycles(d) == SavedCycles(c) + if !Out(d, cycle) && d.bad[cycle] == 0 then {cycle} else {}
    ensures LostCycles(d) == LostCycles(c) + if !Out(d, cycle) && d.bad[cycle] != 0 then {cycle} else {}
    ensures cycle !in SavedCycles(c) && cycle !in LostCycles(c)
  {
    assert forall k: nat :: k != cycle ==> (Saved(d, k) <==> Saved(c, k)) && (Lost(d, k) <==> Lost(c, k));
  }

  lemma HeardTallies(c: Case, d: Case, cycle: nat, success: bool)
    requires Tallies(c) && OneMore(c, d, cycle, success) && Out(c, cycle)
    requires d.op.counts.completed == c.op.counts.completed + if !Out(d, cycle) && d.bad[cycle] == 0 then 1 else 0
    requires d.op.counts.failed == c.op.counts.failed + if !Out(d, cycle) && d.bad[cycle] != 0 then 1 else 0
    ensures Tallies(d)
  {
    HeardCycles(c, d, cycle, success);
  }

  lemma HeardKeepsCounts(c: Case, d: Case, cycle: nat, success: bool)
    requires Goals(c) && Tables(c) && Tallies(c) && HeardGoal(c, d, cycle, success)
    requires d.op.counts == Count(c.op.counts, c.op.setup.expected, cycle, success)
    ensures Goals(d) && Tables(d) && Tallies(d) && c.op.counts.pending > 0 && OneMore(c, d, cycle, success)
  {
    HeardOneMore(c, d, cycle, success);
    HeardGoals(c, d, cycle, success);
    TablesTell(c, d, cycle, success);
    HeardResultTable(c, d, cycle, success);
    HeardFailureTable(c, d, cycle, success);
    HeardTallies(c, d, cycle, success);
  }

  lemma HeardFailuresStop(c: Case, d: Case, cycle: nat, success: bool, stop: bool)
    requires (forall k: nat :: c.bad[k] > 0 ==> stop) && OneMore(c, d, cycle, success) && Tallies(d)
    ensures forall k: nat :: d.bad[k] > 0 ==> stop || !success
    ensures d.op.counts.failed != 0 ==> stop || !success
  {
    if d.op.counts.failed != 0 {
      var k: nat :| k in LostCycles(d);
    }
  }

  lemma ResultJudged(f: Flags, lost: bool, pending: nat, counts: Counters, success: bool, releases: nat)
    requires Judged(f, lost, pending, releases) && pending > 0
    requires counts.failed != 0 ==> f.stop || !success
    ensures var g := ResultFlags(f, counts, success);
            && Judged(g, lost, counts.pending, releases + if g.released && !f.released then 1 else 0)
            && g.stop == (f.stop || !success) && g.schedulingDone == f.schedulingDone && g.cancelled == f.cancelled
  {
  }

  predicate AfterResult(c: Case, d: Case, cycle: nat, success: bool) {
    && HeardGoal(c, d, cycle, success)
    && d.op == Reported(c.op, cycle, success)
    && d.releases == c.releases + (if d.op.flags.released && !c.op.flags.released then 1 else 0)
    && d.cancels == c.cancels && d.halts == c.halts && d.lost == c.lost
  }

  lemma ResultShape(c: Case, cycle: nat, success: bool, idLimit: nat)
    requires cycle in c.outstanding
    ensures AfterResult(c, Step(c, Result(cycle, success), idLimit), cycle, success)
  {
  }

  lemma ResultVerdict(c: Case, d: Case, cycle: nat, success: bool)
    requires Verdict(c) && OneMore(c, d, cycle, success) && Tallies(d) && c.op.counts.pending > 0
    requires AfterResult(c, d, cycle, success)
    ensures Verdict(d)
  {
    HeardFailuresStop(c, d, cycle, success, c.op.flags.stop);
    ResultJudged(c.op.flags, c.lost, c.op.counts.pending, d.op.counts, success, c.releases);
  }

  lemma ResultExplained(c: Case, d: Case, cycle: nat, success: bool)
    requires Explained(c) && AfterResult(c, d, cycle, success)
    ensures Explained(d)
  {
    assert d.op.flags.cancelled == c.op.flags.cancelled && d.op.flags.stop == (c.op.flags.stop || !success);
    if !success {
      assert cycle in d.bad;
    }
  }

  lemma ResultKeeps(c: Case, d: Case, cycle: nat, success: bool, idLimit: nat)
    requires Inv(c, idLimit) && AfterResult(c, d, cycle, success)
    ensures Inv(d, idLimit)
  {
    HeardKeepsCounts(c, d, cycle, success);
    ResultVerdict(c, d, cycle, success);
    ResultExplained(c, d, cycle, success);
  }

  /** A cycle can only be counted as failed when a report failed, and that already stops scheduling. */
  lemma FailedCycleStops(c: Case)
    requires Tallies(c) && Verdict(c) && c.op.counts.failed != 0
    ensures c.op.flags.stop
  {
    var k: nat :| k in LostCycles(c);
  }

  predicate Administrative(e: Event) {
    e.EndScheduling? || e.Cancel? || e.ExpireSession? || e.StopAtCapacity? || e.FailPreparation? || e.LoseServer?
  }

  lemma NothingOutBeforeTheFirstCycle(c: Case)
    requires Goals(c) && c.op.counts.scheduled == 0
    ensures c.op.counts.pending == 0
  {
    assert forall x :: x !in c.outstanding;
    assert c.outstanding == multiset{};
  }

  lemma AdministrativeSame(c: Case, e: Event, idLimit: nat)
    requires Administrative(e)
    ensures SameCounts(c, Step(c, e, idLimit))
  {
  }

  lemma AdministrativeVerdict(c: Case, e: Event, idLimit: nat)
    requires Verdict(c) && Enabled(c, e) && Administrative(e)
    requires (c.op.counts.scheduled == 0 ==> c.op.counts.pending == 0) && (c.op.counts.failed != 0 ==> c.op.flags.stop)
    ensures Verdict(Step(c, e, idLimit))
  {
  }

  lemma AdministrativeKeeps(c: Case, e: Event, idLimit: nat)
    requires Inv(c, idLimit) && Enabled(c, e) && Administrative(e)
    ensures Inv(Step(c, e, idLimit), idLimit)
  {
    if c.op.counts.scheduled == 0 {
      NothingOutBeforeTheFirstCycle(c);
    }
    if c.op.counts.failed != 0 {
      FailedCycleStops(c);
    }
    AdministrativeSame(c, e, idLimit);
    AdministrativeVerdict(c, e, idLimit);
    StepExplained(c, e, idLimit);
    CountsKept(c, Step(c, e, idLimit), idLimit);
  }

  lemma StepKeeps(c: Case, e: Event, idLimit: nat)
    requires Inv(c, idLimit) && Enabled(c, e)
    ensures Inv(Step(c, e, idLimit), idLimit)
  {
    match e
    case Dispatch => DispatchKeeps(c, idLimit);
    case LaunchTestShot => LaunchKeeps(c, idLimit);
    case Result(cycle, success) =>
      ResultShape(c, cycle, success, idLimit);
      ResultKeeps(c, Step(c, e, idLimit), cycle, success, idLimit);
    case _ => AdministrativeKeeps(c, e, idLimit);
  }

  function Run(c: Case, events: seq<Event>, idLimit: nat): Case
    decreases events
  {
    if events == [] then c
    else Run(if Enabled(c, events[0]) then Step(c, events[0], idLimit) else c, events[1..], idLimit)
  }

  lemma {:induction false} RunKeeps(c: Case, events: seq<Event>, idLimit: nat)
    requires Inv(c, idLimit)
    ensures Inv(Run(c, events, idLimit), idLimit) && Run(c, events, idLimit).op.setup == c.op.setup
    decreases events
  {
    if events != [] {
      if Enabled(c, events[0]) {
        StepKeeps(c, events[0], idLimit);
        RunKeeps(Step(c, events[0], idLimit), events[1..], idLimit);
      } else {
        RunKeeps(c, events[1..], idLimit);
      }
    }
  }

  // ---------- whole runs ----------

  predicate Sent(cycle: nat, scheduled: nat) { 1 <= cycle <= scheduled }

  function SentCycles(scheduled: nat): set<nat> { set k: nat | 1 <= k <= scheduled && Sent(k, scheduled) }

  lemma {:induction false} AsManyAsScheduled(scheduled: nat)
    ensures |SentCycles(scheduled)| == scheduled
  {
    if scheduled == 0 {
      assert SentCycles(scheduled) == {};
    } else {
      AsManyAsScheduled(scheduled - 1);
      assert SentCycles(scheduled) == SentCycles(scheduled - 1) + {scheduled};
    }
  }

  /** Every dispatched cycle is open, completed or failed. */
  lemma CyclesAddUp(c: Case)
    requires Tallies(c)
    ensures c.op.counts.scheduled == c.op.counts.completed + c.op.counts.failed + |OpenCycles(c)|
  {
    AsManyAsScheduled(c.op.counts.scheduled);
    assert forall k: nat :: Sent(k, c.op.counts.scheduled) ==> Out(c, k) || Saved(c, k) || Lost(c, k);
    assert SentCycles(c.op.counts.scheduled) == OpenCycles(c) + SavedCycles(c) + LostCycles(c);
    assert OpenCycles(c) !! SavedCycles(c) && (OpenCycles(c) + SavedCycles(c)) !! LostCycles(c);
  }

  lemma CompleteMeansAllSaved(c: Case)
    requires Goals(c) && Tallies(c) && Verdict(c) && c.op.flags.status == Complete
    ensures c.op.counts.completed == c.op.counts.scheduled == c.op.setup.requested != 0
    ensures forall k: nat :: 1 <= k <= c.op.setup.requested ==> c.good[k] == c.op.setup.expected
  {
    assert c.outstanding == multiset{};
    CyclesAddUp(c);
    assert OpenCycles(c) == {};
    if c.op.counts.failed != 0 {
      FailedCycleStops(c);
    }
    forall k: nat | 1 <= k <= c.op.setup.requested
      ensures c.good[k] == c.op.setup.expected
    {
      assert Heard(c, k) == c.op.setup.expected && c.bad[k] == 0;
    }
  }

  // ---------- every operation can be finished ----------

  predicate Ends(e: Event) {
    e.EndScheduling? || e.FailPreparation? || e.LoseServer? || e.LaunchTestShot?
  }

  /** Scheduling is done once one of these events has happened, and before that it is not. */
  lemma SchedulingEndsExactly(c: Case, e: Event, idLimit: nat)
    requires Enabled(c, e)
    ensures Step(c, e, idLimit).op.flags.schedulingDone <==> c.op.flags.schedulingDone || Ends(e)
  {
    if e.Result? {
      ResultsKeepScheduling(c.op.flags, Count(c.op.counts, c.op.setup.expected, e.cycle, e.success), e.success);
    }
  }

  lemma ResultsKeepScheduling(f: Flags, counts: Counters, success: bool)
    ensures ResultFlags(f, counts, success).schedulingDone == f.schedulingDone
    ensures f.stop ==> ResultFlags(f, counts, success).stop
  {
  }

  lemma AllSafeIs(prefix: string, cycle: nat, groups: seq<string>)
    ensures AllSafe(CycleIds(prefix, cycle, groups)) <==>
      forall g :: g in groups ==> SafeIdentifier(CaptureId(prefix, cycle, g))
  {
    var ids := CycleIds(prefix, cycle, groups);
    forall i | 0 <= i < |ids|
      ensures ids[i] == CaptureId(prefix, cycle, groups[i]) && groups[i] in groups
    {
    }
    forall g | g in groups && AllSafe(ids)
      ensures SafeIdentifier(CaptureId(prefix, cycle, g))
    {
      var i :| 0 <= i < |groups| && groups[i] == g;
      assert SafeIdentifier(ids[i]);
    }
  }

  /** A cycle is sent, one goal for each group, exactly when all its identifiers are safe; otherwise the operation
      is called off and nothing is sent. */
  lemma DispatchIsExact(c: Case, idLimit: nat)
    requires Inv(c, idLimit) && Enabled(c, Dispatch)
    ensures var n := c.op.counts.scheduled + 1; var d := Step(c, Dispatch, idLimit);
            if forall g :: g in c.op.setup.groups ==> SafeIdentifier(CaptureId(c.op.setup.prefix, n, g)) then
              && d.op.counts.scheduled == n && d.outstanding == c.outstanding[n := |c.op.setup.groups|]
              && d.op.counts.pending == c.op.counts.pending + |c.op.setup.groups|
              && d.op.flags == c.op.flags.(status := Running)
            else d.op.counts == c.op.counts && d.outstanding == c.outstanding && d.op.flags.stop
  {
    AllSafeIs(c.op.setup.prefix, c.op.counts.scheduled + 1, c.op.setup.groups);
  }

  lemma RunUnfolds(c: Case, e: Event, rest: seq<Event>, idLimit: nat)
    requires Enabled(c, e)
    ensures Run(c, [e] + rest, idLimit) == Run(Step(c, e, idLimit), rest, idLimit)
  {
    assert ([e] + rest)[1..] == rest;
  }

  /** Once scheduling is done, the operation is over when all goals still out have reported. */
  lemma {:induction false} Drains(c: Case, idLimit: nat) returns (events: seq<Event>)
    requires Inv(c, idLimit) && c.op.flags.schedulingDone
    ensures |events| == |c.outstanding| && (forall e :: e in events ==> e.Result?)
    ensures Run(c, events, idLimit).op.flags.recorded
    decreases |c.outstanding|
  {
    if c.outstanding == multiset{} {
      events := [];
    } else {
      var cycle :| cycle in c.outstanding;
      var e := Result(cycle, true);
      StepKeeps(c, e, idLimit);
      SchedulingEndsExactly(c, e, idLimit);
      var rest := Drains(Step(c, e, idLimit), idLimit);
      RunUnfolds(c, e, rest, idLimit);
      events := [e] + rest;
    }
  }

  /** No operation gets stuck: from every reachable state it can be brought to its terminal state by cancelling
      it, ending its scheduling and hearing from the goals that are still out. */
  lemma CanAlwaysFinish(c: Case, idLimit: nat) returns (events: seq<Event>)
    requires Inv(c, idLimit)
    ensures |events| <= |c.outstanding| + 2
    ensures Run(c, events, idLimit).op.flags.recorded
  {
    if c.op.flags.schedulingDone {
      events := Drains(c, idLimit);
    } else if c.op.counts.scheduled == 0 {
      NothingOutBeforeTheFirstCycle(c);
      StepKeeps(c, FailPreparation, idLimit);
      SchedulingEndsExactly(c, FailPreparation, idLimit);
      RunUnfolds(c, FailPreparation, [], idLimit);
      events := [FailPreparation] + [];
    } else {
      var d := Step(c, Cancel, idLimit);
      StepKeeps(c, Cancel, idLimit);
      SchedulingEndsExactly(c, Cancel, idLimit);
      StepKeeps(d, EndScheduling, idLimit);
      SchedulingEndsExactly(d, EndScheduling, idLimit);
      var rest := Drains(Step(d, EndScheduling, idLimit), idLimit);
      RunUnfolds(d, EndScheduling, rest, idLimit);
      RunUnfolds(c, Cancel, [EndScheduling] + rest, idLimit);
      events := [Cancel] + ([EndScheduling] + rest);
    }
  }

  // ---------- the status shown on the way ----------

  /** What an unfinished operation shows: while nothing has called it off, how far it has come; after a
      cancellation, that it drains or is cancelled. */
  predicate ShowsProgress(kind: Kind, f: Flags, scheduled: nat) {
    && (f.cancelled ==> f.stop)
    && (!f.stop && !f.schedulingDone ==>
          f.status == if scheduled > 0 then Running else if kind.Sequence? then Preparing else Waiting)
    && (!f.stop && f.schedulingDone && !f.recorded ==>
          f.status == if kind.TestShot? then Preparing else Draining)
    && (f.cancelled && !f.recorded && !kind.TestShot? ==> f.status == Draining || f.status == Cancelled)
  }

  lemma ResultShowsProgress(kind: Kind, f: Flags, counts: Counters, success: bool)
    requires ShowsProgress(kind, f, counts.scheduled)
    ensures ShowsProgress(kind, ResultFlags(f, counts, success), counts.scheduled)
  {
  }

  lemma FlagStepShowsProgress(kind: Kind, f: Flags, counts: Counters, e: Event)
    requires ShowsProgress(kind, f, counts.scheduled)
    requires e.EndScheduling? ==> !kind.TestShot?
    ensures ShowsProgress(kind, FlagStep(f, counts, e), counts.scheduled)
  {
  }

  lemma StepShowsProgress(c: Case, e: Event, idLimit: nat)
    requires ShowsProgress(c.op.setup.kind, c.op.flags, c.op.counts.scheduled) && Enabled(c, e)
    ensures var o := Step(c, e, idLimit).op;
            ShowsProgress(o.setup.kind, o.flags, o.counts.scheduled) && o.setup == c.op.setup
  {
    match e
    case Dispatch =>
    case LaunchTestShot =>
    case Result(cycle, success) =>
      ResultShowsProgress(c.op.setup.kind, c.op.flags, Count(c.op.counts, c.op.setup.expected, cycle, success), success);
    case _ => FlagStepShowsProgress(c.op.setup.kind, c.op.flags, c.op.counts, e);
  }

  lemma {:induction false} RunShowsProgress(c: Case, events: seq<Event>, idLimit: nat)
    requires ShowsProgress(c.op.setup.kind, c.op.flags, c.op.counts.scheduled)
    ensures var o := Run(c, events, idLimit).op;
            ShowsProgress(o.setup.kind, o.flags, o.counts.scheduled) && o.setup == c.op.setup
    decreases events
  {
    if events != [] {
      if Enabled(c, events[0]) {
        StepShowsProgress(c, events[0], idLimit);
        RunShowsProgress(Step(c, events[0], idLimit), events[1..], idLimit);
      } else {
        RunShowsProgress(c, events[1..], idLimit);
      }
    }
  }

  /** How calling an operation off shows: at capacity it drains; when its lease runs out it only stops; a
      cancellation drains it, or is complete when nothing is out. */
  lemma CallingOffShows(c: Case, e: Event, idLimit: nat)
    requires Enabled(c, e)
    ensures var f := Step(c, e, idLimit).op.flags;
            && (e.StopAtCapacity? ==> f.stop && f.status == Draining)
            && (e.ExpireSession? ==> f.stop && f.status == c.op.flags.status)
            && (e.Cancel? && !(c.op.flags.schedulingDone && c.op.counts.pending == 0) ==>
                  f.stop && f.cancelled && f.status == if c.op.counts.pending > 0 then Draining else Cancelled)
  {
  }

  lemma StopStays(c: Case, e: Event, idLimit: nat)
    requires Enabled(c, e) && c.op.flags.stop && !c.op.setup.kind.TestShot?
    ensures var o := Step(c, e, idLimit).op;
            o.flags.stop && o.counts.scheduled == c.op.counts.scheduled && o.setup == c.op.setup
  {
    if e.Result? {
      ResultsKeepScheduling(c.op.flags, Count(c.op.counts, c.op.setup.expected, e.cycle, e.success), e.success);
    }
  }

  /** Once an operation has been called off, whatever happens, no further cycle is sent. */
  lemma {:induction false} StoppedSendsNothing(c: Case, events: seq<Event>, idLimit: nat)
    requires c.op.flags.stop && !c.op.setup.kind.TestShot?
    ensures Run(c, events, idLimit).op.counts.scheduled == c.op.counts.scheduled
    decreases events
  {
    if events != [] {
      if Enabled(c, events[0]) {
        StopStays(c, events[0], idLimit);
        StoppedSendsNothing(Step(c, events[0], idLimit), events[1..], idLimit);
      } else {
        StoppedSendsNothing(c, events[1..], idLimit);
      }
    }
  }

  // ---------- all guarantees ----------

  /** Whatever the order of events: pending saves are the goals still out, every cycle is accounted for,
      the terminal transition and the release of the lease happen once, exactly when scheduling is done
      and the last result is in, and "complete" means every requested cycle was saved by every goal. */
  lemma OperationGuarantees(setup: Setup, events: seq<Event>, idLimit: nat)
    requires Proper(setup)
    ensures var c := Run(Created(setup), events, idLimit); var o := c.op;
            && o.setup == setup && o.counts.pending == |c.outstanding|
            && o.counts.completed == |SavedCycles(c)| && o.counts.failed == |LostCycles(c)|
            && o.counts.scheduled == o.counts.completed + o.counts.failed + |OpenCycles(c)|
            && (o.flags.recorded <==> o.flags.schedulingDone && c.outstanding == multiset{})
            && c.releases == (if o.flags.recorded then 1 else 0)
            && (o.flags.status == Complete ==>
                  && o.flags.recorded && o.counts.completed == o.counts.scheduled == setup.requested != 0
                  && forall k: nat :: 1 <= k <= setup.requested ==> c.good[k] == setup.expected)
            && (o.flags.recorded ==>
                  (o.flags.status == Complete <==> !c.cancels && !c.halts && c.bad == multiset{}))
            && (o.flags.recorded && o.flags.status != Complete ==>
                  o.flags.status == if c.cancels && !c.lost then Cancelled else Failed)
            && ShowsProgress(setup.kind, o.flags, o.counts.scheduled)
            && Shows(o.captures, IdsThrough(setup.kind, setup.prefix, setup.groups, o.counts.scheduled), idLimit)
  {
    RunShowsProgress(Created(setup), events, idLimit);
    CreatedHolds(setup, idLimit);
    RunKeeps(Created(setup), events, idLimit);
    var c := Run(Created(setup), events, idLimit);
    CyclesAddUp(c);
    if c.op.flags.status == Complete {
      CompleteMeansAllSaved(c);
    }
  }
}
