/** The recorder's table of operations: a bounded number may be unfinished, and of the finished ones the
    newest are kept. */
module OperationRetention {

  import opened CaptureOperations
  import opened Sequences

  type OperationId = nat

  datatype Limits = Limits(active: nat, history: nat, ids: nat)

  /** `created` and `finished` are the whole history; the code keeps `operations` and `terminalIds`. */
  datatype Recorder = Recorder(
    limits: Limits,
    operations: map<OperationId, Case>,
    terminalIds: seq<OperationId>,
    created: set<OperationId>,
    finished: seq<OperationId>)

  function Init(limits: Limits): Recorder {
    Recorder(limits, map[], [], {}, [])
  }

  predicate Unfinished(ops: map<OperationId, Case>, id: OperationId) {
    id in ops && !ops[id].op.flags.recorded
  }

  function Active(ops: map<OperationId, Case>): set<OperationId> {
    set id | id in ops && Unfinished(ops, id)
  }

  function Pruned(ops: map<OperationId, Case>, terminalIds: seq<OperationId>, limit: nat)
    : (map<OperationId, Case>, seq<OperationId>)
    decreases terminalIds
  {
    if |terminalIds| <= limit then (ops, terminalIds)
    else
      var expired := terminalIds[0];
      Pruned(if expired in ops && Terminal(ops[expired].op.flags.status) then ops - {expired} else ops,
             terminalIds[1..], limit)
  }

  // ---------- the steps ----------

  datatype RecorderEvent = Create(id: OperationId, setup: Setup) | Act(id: OperationId, event: Event)

  /** Identifiers are generated from a counter, so a new one has never been used. */
  predicate Possible(r: Recorder, e: RecorderEvent) {
    match e
    case Create(id, setup) => id !in r.created && Proper(setup)
    case Act(id, event) => id in r.operations && Enabled(r.operations[id], event)
  }

  function AfterCreate(r: Recorder, id: OperationId, setup: Setup): Recorder {
    if |Active(r.operations)| >= r.limits.active then r
    else r.(operations := r.operations[id := Created(setup)], created := r.created + {id})
  }

  function Retired(r: Recorder, id: OperationId): Recorder {
    var (operations, terminalIds) := Pruned(r.operations, r.terminalIds + [id], r.limits.history);
    r.(operations := operations, terminalIds := terminalIds, finished := r.finished + [id])
  }

  function AfterAct(r: Recorder, id: OperationId, event: Event): Recorder
    requires id in r.operations
  {
    var was := r.operations[id];
    var now := Step(was, event, r.limits.ids);
    var next := r.(operations := r.operations[id := now]);
    if now.op.flags.recorded && !was.op.flags.recorded then Retired(next, id) else next
  }

  function RecorderStep(r: Recorder, e: RecorderEvent): Recorder
    requires Possible(r, e)
  {
    match e
    case Create(id, setup) => AfterCreate(r, id, setup)
    case Act(id, event) => AfterAct(r, id, event)
  }

  function RunRecorder(r: Recorder, events: seq<RecorderEvent>): Recorder
    decreases events
  {
    if events == [] then r
    else RunRecorder(if Possible(r, events[0]) then RecorderStep(r, events[0]) else r, events[1..])
  }

  // ---------- what every step keeps ----------

  ghost predicate Sound(ops: map<OperationId, Case>, idLimit: nat) {
    forall id :: id in ops ==> Inv(ops[id], idLimit)
  }

  predicate Retention(r: Recorder) {
    && |Active(r.operations)| <= r.limits.active
    && Distinct(r.finished)
    && r.terminalIds == Last(r.finished, r.limits.history)
    && r.operations.Keys <= r.created
    && (forall id :: id in r.finished ==> id in r.created && id !in Active(r.operations))
    && (forall id :: id in r.created ==> id in Active(r.operations) || id in r.finished)
    && (forall id :: id in r.operations ==> Unfinished(r.operations, id) || id in r.terminalIds)
    && (forall id :: id in r.terminalIds ==> Shown(r.operations, id))
  }

  /** A finished operation whose status says so: what pruning looks at. */
  predicate Shown(ops: map<OperationId, Case>, id: OperationId) {
    id in ops && ops[id].op.flags.recorded && Terminal(ops[id].op.flags.status)
  }

  ghost predicate RecorderInv(r: Recorder) {
    Sound(r.operations, r.limits.ids) && Retention(r)
  }

  lemma InitHolds(limits: Limits)
    ensures RecorderInv(Init(limits))
  {
    assert Active(Init(limits).operations) == {};
  }

  lemma CreateKeepsSound(r: Recorder, id: OperationId, setup: Setup)
    requires Sound(r.operations, r.limits.ids) && Proper(setup)
    ensures Sound(AfterCreate(r, id, setup).operations, r.limits.ids)
    ensures AfterCreate(r, id, setup).limits == r.limits
  {
    CreatedHolds(setup, r.limits.ids);
  }

  /** Retention looks at nothing but which operations there are and which of them have finished. */
  lemma MembersAdded(r: Recorder, s: Recorder, added: set<OperationId>)
    requires Retention(r) && added !! r.created
    requires s == r.(operations := s.operations, created := r.created + added)
    requires s.operations.Keys == r.operations.Keys + added
    requires forall x :: Unfinished(s.operations, x) <==> Unfinished(r.operations, x) || x in added
    requires forall x :: Shown(r.operations, x) ==> Shown(s.operations, x)
    requires |Active(r.operations)| + |added| <= r.limits.active
    ensures Retention(s)
  {
    assert Active(s.operations) == Active(r.operations) + added;
  }

  lemma CreateKeeps(r: Recorder, id: OperationId, setup: Setup)
    requires Retention(r) && id !in r.created
    ensures Retention(AfterCreate(r, id, setup))
  {
    var ops := r.operations[id := Created(setup)];
    if |Active(r.operations)| < r.limits.active {
      assert forall x :: x != id && x in ops ==> x in r.operations && ops[x] == r.operations[x];
      MembersAdded(r, AfterCreate(r, id, setup), {id});
    }
  }

  /** A step that finishes nothing changes no membership. */
  lemma ReplaceKeeps(r: Recorder, id: OperationId, c: Case)
    requires Retention(r) && id in r.operations
    requires c == r.operations[id] || !(c.op.flags.recorded || r.operations[id].op.flags.recorded)
    ensures Retention(r.(operations := r.operations[id := c]))
  {
    var ops := r.operations[id := c];
    forall x
      ensures Unfinished(ops, x) <==> Unfinished(r.operations, x)
      ensures Shown(r.operations, x) ==> Shown(ops, x)
    {
      ReplacedMember(r.operations, id, c, x);
    }
    MembersAdded(r, r.(operations := ops), {});
  }

  lemma ReplacedMember(ops: map<OperationId, Case>, id: OperationId, c: Case, x: OperationId)
    requires id in ops && (c == ops[id] || !(c.op.flags.recorded || ops[id].op.flags.recorded))
    ensures Unfinished(ops[id := c], x) <==> Unfinished(ops, x)
    ensures Shown(ops, x) ==> Shown(ops[id := c], x)
  {
  }

  /** Only the oldest finished operation can be over the limit, and it goes. */
  lemma PrunedOnce(ops: map<OperationId, Case>, terminalIds: seq<OperationId>, limit: nat)
    requires |terminalIds| <= limit + 1
    requires forall id :: id in terminalIds ==> id in ops && Terminal(ops[id].op.flags.status)
    ensures Pruned(ops, terminalIds, limit) ==
      if |terminalIds| <= limit then (ops, terminalIds) else (ops - {terminalIds[0]}, terminalIds[1..])
  {
    if |terminalIds| > limit {
      assert terminalIds[0] in ops;
    }
  }

  lemma LastGrows<T>(s: seq<T>, x: T, limit: nat)
    ensures var t := Last(s, limit) + [x]; Last(s + [x], limit) == if |t| <= limit then t else t[1..]
    ensures |Last(s, limit)| <= limit
  {
  }

  lemma RetireKeeps(r: Recorder, id: OperationId, c: Case)
    requires Retention(r) && Unfinished(r.operations, id)
    requires c.op.flags.recorded && Terminal(c.op.flags.status)
    ensures Retention(Retired(r.(operations := r.operations[id := c]), id))
  {
    var ops := r.operations[id := c];
    var ids := r.terminalIds + [id];
    LastGrows(r.finished, id, r.limits.history);
    assert id in Active(r.operations);
    assert forall x :: Unfinished(ops, x) <==> Unfinished(r.operations, x) && x != id;
    assert forall x :: x in ids ==> Shown(ops, x);
    PrunedOnce(ops, ids, r.limits.history);
    var s := Retired(r.(operations := ops), id);
    LastDistinct(r.finished, id, r.limits.history);
    RetiredMembers(ops, ids, s.operations, s.terminalIds);
    RetireRetention(r, id, s);
  }

  lemma LastDistinct(s: seq<OperationId>, id: OperationId, limit: nat)
    requires Distinct(s) && id !in s
    ensures Distinct(Last(s, limit) + [id])
  {
  }

  lemma RetireRetention(r: Recorder, id: OperationId, s: Recorder)
    requires Retention(r) && Unfinished(r.operations, id)
    requires s.limits == r.limits && s.created == r.created && s.finished == r.finished + [id]
    requires s.terminalIds == Last(s.finished, s.limits.history)
    requires forall x :: Unfinished(s.operations, x) <==> Unfinished(r.operations, x) && x != id
    requires forall x :: x in s.terminalIds ==> Shown(s.operations, x)
    requires forall x :: x in s.operations ==>
               x in r.operations && (x == id || x in r.terminalIds ==> x in s.terminalIds)
    ensures Retention(s)
  {
    assert id in Active(r.operations);
    assert Active(s.operations) == Active(r.operations) - {id};
  }

  /** Dropping the oldest finished operation leaves the others as they were. */
  lemma RetiredMembers(ops: map<OperationId, Case>, ids: seq<OperationId>, kept: map<OperationId, Case>,
                       left: seq<OperationId>)
    requires Distinct(ids) && ids != [] && forall x :: x in ids ==> Shown(ops, x)
    requires (kept == ops && left == ids) || (kept == ops - {ids[0]} && left == ids[1..])
    ensures forall x :: Unfinished(kept, x) <==> Unfinished(ops, x)
    ensures forall x :: x in left ==> Shown(kept, x)
    ensures forall x :: x in kept ==> x in ops && (x in ids ==> x in left)
  {
    forall x | x in left
      ensures Shown(kept, x)
    {
      var i :| 0 <= i < |left| && left[i] == x;
      assert x == if left == ids then ids[i] else ids[i + 1];
      assert Shown(ops, x);
    }
    if left != ids {
      assert ids == [ids[0]] + ids[1..];
      assert Shown(ops, ids[0]);
    }
  }

  /** Nothing touches a finished operation: no goal of it is out and its scheduler is gone. */
  lemma FinishedStaysFinished(c: Case, e: Event, idLimit: nat)
    requires Inv(c, idLimit) && Enabled(c, e) && c.op.flags.recorded
    ensures e == Cancel && Step(c, e, idLimit) == c
  {
    assert c.outstanding == multiset{};
  }

  lemma ActKeeps(r: Recorder, id: OperationId, event: Event)
    requires RecorderInv(r) && id in r.operations && Enabled(r.operations[id], event)
    ensures RecorderInv(AfterAct(r, id, event))
  {
    var was := r.operations[id];
    var now := Step(was, event, r.limits.ids);
    StepKeeps(was, event, r.limits.ids);
    ActKeepsSound(r, id, now);
    FinishedIsTerminal(now, r.limits.ids);
    if was.op.flags.recorded {
      FinishedStaysFinished(was, event, r.limits.ids);
      ReplaceKeeps(r, id, now);
    } else if now.op.flags.recorded {
      RetireKeeps(r, id, now);
    } else {
      ReplaceKeeps(r, id, now);
    }
  }

  lemma FinishedIsTerminal(c: Case, idLimit: nat)
    requires Inv(c, idLimit)
    ensures c.op.flags.recorded ==> Terminal(c.op.flags.status)
  {
  }

  lemma ActKeepsSound(r: Recorder, id: OperationId, c: Case)
    requires Sound(r.operations, r.limits.ids) && Inv(c, r.limits.ids)
    ensures Sound(r.operations[id := c], r.limits.ids)
    ensures Sound(Retired(r.(operations := r.operations[id := c]), id).operations, r.limits.ids)
  {
    PrunedSound(r.operations[id := c], r.terminalIds + [id], r.limits.history, r.limits.ids);
  }

  lemma {:induction false} PrunedSound(ops: map<OperationId, Case>, terminalIds: seq<OperationId>, limit: nat,
                                       idLimit: nat)
    requires Sound(ops, idLimit)
    ensures Sound(Pruned(ops, terminalIds, limit).0, idLimit)
    decreases terminalIds
  {
    if |terminalIds| > limit {
      var x := terminalIds[0];
      PrunedSound(if x in ops && Terminal(ops[x].op.flags.status) then ops - {x} else ops, terminalIds[1..], limit,
                  idLimit);
    }
  }

  lemma RecorderStepKeeps(r: Recorder, e: RecorderEvent)
    requires RecorderInv(r) && Possible(r, e)
    ensures RecorderInv(RecorderStep(r, e))
  {
    match e
    case Create(id, setup) =>
      CreateKeepsSound(r, id, setup);
      CreateKeeps(r, id, setup);
    case Act(id, event) => ActKeeps(r, id, event);
  }

  lemma {:induction false} RunsKeepInvariant(r: Recorder, events: seq<RecorderEvent>)
    requires RecorderInv(r)
    ensures RecorderInv(RunRecorder(r, events))
    decreases events
  {
    if events != [] {
      if Possible(r, events[0]) {
        RecorderStepKeeps(r, events[0]);
        RunsKeepInvariant(RecorderStep(r, events[0]), events[1..]);
      } else {
        RunsKeepInvariant(r, events[1..]);
      }
    }
  }

  // ---------- what one step of the table does ----------

  /** A new operation is taken exactly while fewer than the limit are unfinished; it starts with nothing
      scheduled, and the others stay as they are. */
  lemma CreateIsExact(r: Recorder, id: OperationId, setup: Setup)
    requires Retention(r) && id !in r.created
    ensures var s := AfterCreate(r, id, setup);
            if |set x | x in r.operations && !r.operations[x].op.flags.recorded| < r.limits.active then
              && s.operations == r.operations[id := Created(setup)] && s.created == r.created + {id}
              && s.terminalIds == r.terminalIds && s.finished == r.finished
            else s == r
  {
    assert Active(r.operations) == set x | x in r.operations && !r.operations[x].op.flags.recorded;
  }

  predicate JustFinished(r: Recorder, id: OperationId, event: Event)
    requires id in r.operations
  {
    Step(r.operations[id], event, r.limits.ids).op.flags.recorded && !r.operations[id].op.flags.recorded
  }

  /** Dropping at most the operation that finished first of all those kept, nothing else is touched. */
  predicate DropsAtMostOldest(before: map<OperationId, Case>, after: map<OperationId, Case>, ids: seq<OperationId>,
                              limit: nat)
  {
    && (forall x :: x in after ==> x in before && after[x] == before[x])
    && (forall x :: x in before && x !in after ==> |ids| > limit && x == ids[0])
  }

  lemma PruningDropsOldest(ops: map<OperationId, Case>, ids: seq<OperationId>, limit: nat)
    requires ids != [] && |ids| <= limit + 1 && forall x :: x in ids ==> Shown(ops, x)
    ensures DropsAtMostOldest(ops, Pruned(ops, ids, limit).0, ids, limit)
  {
    assert forall x :: x in ids ==> x in ops && Terminal(ops[x].op.flags.status);
    PrunedOnce(ops, ids, limit);
  }

  lemma FinishedAreShown(r: Recorder, id: OperationId, now: Case)
    requires Retention(r) && id in r.operations && now.op.flags.recorded && Terminal(now.op.flags.status)
    ensures forall x :: x in r.terminalIds + [id] ==> Shown(r.operations[id := now], x)
    ensures |r.terminalIds| <= r.limits.history
  {
    assert forall x :: x in r.terminalIds && x != id ==> Shown(r.operations, x);
  }

  /** An event moves the one operation it is about, by that operation's own step, and no other. When it finishes
      the operation, at most the oldest finished one is dropped. */
  lemma ActMovesOne(r: Recorder, id: OperationId, event: Event)
    requires RecorderInv(r) && id in r.operations && Enabled(r.operations[id], event)
    ensures var s := AfterAct(r, id, event);
            var moved := r.operations[id := Step(r.operations[id], event, r.limits.ids)];
            if JustFinished(r, id, event) then
              && s.finished == r.finished + [id]
              && DropsAtMostOldest(moved, s.operations, r.terminalIds + [id], r.limits.history)
            else s == r.(operations := moved)
  {
    var now := Step(r.operations[id], event, r.limits.ids);
    StepKeeps(r.operations[id], event, r.limits.ids);
    FinishedIsTerminal(now, r.limits.ids);
    if JustFinished(r, id, event) {
      FinishedAreShown(r, id, now);
      PruningDropsOldest(r.operations[id := now], r.terminalIds + [id], r.limits.history);
    }
  }

  /** Over every run: unfinished operations never pass their limit and are never dropped; each operation
      finishes once; and the finished operations still stored are exactly the newest. */
  lemma RetentionGuarantees(limits: Limits, events: seq<RecorderEvent>)
    ensures var r := RunRecorder(Init(limits), events);
            && |Active(r.operations)| <= limits.active
            && (forall id :: id in r.created && id !in r.finished ==> Unfinished(r.operations, id))
            && Distinct(r.finished)
            && r.operations.Keys - Active(r.operations) == (set id | id in Last(r.finished, limits.history))
            && (forall id :: id in r.operations ==>
                  r.operations[id].releases == if id in Active(r.operations) then 0 else 1)
  {
    InitHolds(limits);
    RunsKeepInvariant(Init(limits), events);
    LimitsStay(Init(limits), events);
  }

  lemma {:induction false} LimitsStay(r: Recorder, events: seq<RecorderEvent>)
    ensures RunRecorder(r, events).limits == r.limits
    decreases events
  {
    if events != [] {
      LimitsStay(if Possible(r, events[0]) then RecorderStep(r, events[0]) else r, events[1..]);
    }
  }
}
