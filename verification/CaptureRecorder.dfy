/** The recorder's operation objects, and the table of operations with its retention queue. */
module CaptureRecorders {

  import opened CaptureOperations
  import opened OperationRetention

  class OperationState {
    const id: OperationId
    const setup: Setup
    var status: Status
    var stop: bool
    var cancelled: bool
    var schedulingDone: bool
    var recorded: bool
    var released: bool
    var scheduled: nat
    var completed: nat
    var failed: nat
    var pending: nat
    var results: map<nat, nat>
    var failures: map<nat, nat>
    var captureIds: seq<string>
    var captureIdCount: nat
    var captureIdsTruncated: bool

    ghost function FlagsNow(): Flags
      reads this
    {
      Flags(status, stop, cancelled, schedulingDone, recorded, released)
    }

    ghost function CountsNow(): Counters
      reads this
    {
      Counters(scheduled, completed, failed, pending, results, failures)
    }

    ghost function CapturesNow(): CaptureIds
      reads this
    {
      CaptureIds(captureIds, captureIdCount, captureIdsTruncated)
    }

    ghost function View(): Operation
      reads this
    {
      Operation(setup, FlagsNow(), CountsNow(), CapturesNow())
    }

    constructor (id: OperationId, setup: Setup)
      ensures View() == Created(setup).op && this.id == id
    {
      this.id, this.setup := id, setup;
      status := if setup.kind.Sequence? then Preparing else Waiting;
      stop, cancelled, schedulingDone, recorded, released := false, false, false, false, false;
      scheduled, completed, failed, pending, results, failures := 0, 0, 0, 0, map[], map[];
      captureIds, captureIdCount, captureIdsTruncated := [], 0, false;
    }

    /** Counts every identifier but shows only the newest. */
    method AppendBoundedCaptureId(captureId: string, limit: nat)
      modifies this`captureIds, this`captureIdCount, this`captureIdsTruncated
      ensures CapturesNow() == Append(old(CapturesNow()), captureId, limit)
    {
      captureIdCount := captureIdCount + 1;
      captureIds := captureIds + [captureId];
      if |captureIds| > limit {
        captureIds := captureIds[|captureIds| - limit..];
      }
      captureIdsTruncated := captureIdCount > |captureIds|;
    }

    /** Builds the goals of the next cycle; one unsafe identifier calls the whole cycle off. */
    method BuildGoals(cycle: nat) returns (goals: seq<string>, identifiersValid: bool)
      ensures identifiersValid <==> AllSafe(CycleIds(setup.prefix, cycle, setup.groups))
      ensures identifiersValid ==> goals == CycleIds(setup.prefix, cycle, setup.groups)
    {
      ghost var all := CycleIds(setup.prefix, cycle, setup.groups);
      goals := [];
      for i := 0 to |setup.groups|
        invariant goals == all[..i] && AllSafe(goals)
      {
        var captureId := CaptureId(setup.prefix, cycle, setup.groups[i]);
        if !SafeIdentifier(captureId) {
          assert !SafeIdentifier(all[i]);
          return [], false;
        }
        goals := goals + [captureId];
      }
      identifiersValid := true;
    }

    method BookGoals(goals: seq<string>, idLimit: nat)
      modifies this`captureIds, this`captureIdCount, this`captureIdsTruncated, this`pending
      ensures CapturesNow() == AppendAll(old(CapturesNow()), goals, idLimit)
      ensures pending == old(pending) + |goals|
    {
      for i := 0 to |goals|
        invariant CapturesNow() == AppendAll(old(CapturesNow()), goals[..i], idLimit)
        invariant pending == old(pending) + i
      {
        assert goals[..i + 1][..i] == goals[..i];
        AppendBoundedCaptureId(goals[i], idLimit);
        pending := pending + 1;
      }
      assert goals[..|goals|] == goals;
    }

    /** The goals of one more cycle are booked. */
    method BookCycle(goals: seq<string>, idLimit: nat)
      modifies this`status, this`captureIds, this`captureIdCount, this`captureIdsTruncated, this`pending, this`scheduled
      ensures var was := old(View());
              var counts := was.counts.(pending := was.counts.pending + |goals|, scheduled := was.counts.scheduled + 1);
              View() == Operation(was.setup, was.flags.(status := Running), counts, AppendAll(was.captures, goals, idLimit))
    {
      status := Running;
      BookGoals(goals, idLimit);
      scheduled := scheduled + 1;
    }

    method RefuseCycle()
      modifies this`status, this`stop
      ensures View() == old(View()).(flags := old(FlagsNow()).(stop := true, status := Failed))
    {
      stop, status := true, Failed;
    }

    method DispatchCycle(idLimit: nat)
      modifies this`status, this`stop, this`captureIds, this`captureIdCount, this`captureIdsTruncated, this`pending,
               this`scheduled
      ensures View() == Dispatched(old(View()), idLimit)
    {
      var goals, identifiersValid := BuildGoals(scheduled + 1);
      if identifiersValid {
        BookCycle(goals, idLimit);
      } else {
        RefuseCycle();
      }
    }

    method ScheduleTestShot(idLimit: nat)
      modifies this`status, this`scheduled, this`pending, this`schedulingDone
      modifies this`captureIds, this`captureIdCount, this`captureIdsTruncated
      ensures View() == TestShotLaunched(old(View()), idLimit)
    {
      status := Preparing;
      scheduled, pending := 1, 1;
      AppendBoundedCaptureId(setup.prefix, idLimit);
      schedulingDone := true;
    }

    /** Books one result. */
    method CountResult(cycle: nat, success: bool)
      modifies this`pending, this`stop, this`results, this`failures, this`completed, this`failed
      ensures CountsNow() == Count(old(CountsNow()), setup.expected, cycle, success)
      ensures stop == (old(stop) || !success)
    {
      if pending != 0 {
        pending := pending - 1;
      }
      results := Bump(results, cycle);
      if !success {
        failures := Bump(failures, cycle);
        stop := true;
      }
      if results[cycle] == setup.expected {
        if cycle !in failures || failures[cycle] == 0 {
          completed := completed + 1;
        } else {
          failed := failed + 1;
        }
        results := results - {cycle};
        failures := failures - {cycle};
      }
    }

    /** The terminal transition happens once; `first` tells the caller that it just did. */
    method RecordTerminal() returns (first: bool)
      modifies this`recorded, this`released
      ensures FlagsNow() == Recorded(old(FlagsNow()))
      ensures first <==> recorded && !old(recorded)
    {
      if recorded || !Terminal(status) {
        return false;
      }
      recorded := true;
      if !released {
        released := true;
      }
      return true;
    }

    method Finish() returns (first: bool)
      modifies this`status, this`recorded, this`released
      ensures FlagsNow() == Finished(old(FlagsNow()), failed)
      ensures first <==> recorded && !old(recorded)
    {
      if stop {
        status := if cancelled then Cancelled else Failed;
      } else if failed != 0 {
        status := Failed;
      } else {
        status := Complete;
      }
      first := RecordTerminal();
    }

    method CaptureFinished(cycle: nat, success: bool) returns (first: bool)
      modifies this
      ensures View() == Reported(old(View()), cycle, success)
      ensures first <==> recorded && !old(recorded)
    {
      CountResult(cycle, success);
      first := false;
      if schedulingDone && pending == 0 {
        first := Finish();
      }
    }

    method FinishScheduling() returns (first: bool)
      modifies this`status, this`stop, this`cancelled, this`schedulingDone, this`recorded, this`released
      ensures FlagsNow() == SchedulingEnded(old(FlagsNow()), old(CountsNow()))
      ensures first <==> recorded && !old(recorded)
    {
      schedulingDone := true;
      first := false;
      if pending == 0 {
        first := Finish();
      } else if !stop {
        status := Draining;
      }
    }

    method FailSequencePreparation() returns (first: bool)
      modifies this`status, this`stop, this`cancelled, this`schedulingDone, this`recorded, this`released
      ensures FlagsNow() == PreparationFailed(old(FlagsNow()))
      ensures first <==> recorded && !old(recorded)
    {
      stop, schedulingDone := true, true;
      status := if cancelled then Cancelled else Failed;
      first := RecordTerminal();
    }

    /** Refused once the operation has finished; otherwise captures already accepted still finish. */
    method CancelOperation() returns (success: bool)
      modifies this`status, this`stop, this`cancelled, this`schedulingDone, this`recorded, this`released
      ensures FlagsNow() == CancelRequested(old(FlagsNow()), old(CountsNow()))
      ensures success <==> !(old(schedulingDone) && old(pending) == 0)
    {
      if schedulingDone && pending == 0 {
        return false;
      }
      stop, cancelled := true, true;
      status := if pending == 0 then Cancelled else Draining;
      return true;
    }
  }

  class OperationTable {
    const limits: Limits
    var operations: map<OperationId, Case>
    var terminalIds: seq<OperationId>
    ghost var created: set<OperationId>
    ghost var finished: seq<OperationId>

    ghost function View(): Recorder
      reads this
    {
      Recorder(limits, operations, terminalIds, created, finished)
    }

    constructor (limits: Limits)
      ensures View() == Init(limits)
    {
      this.limits := limits;
      operations, terminalIds, created, finished := map[], [], {}, [];
    }

    /** An operation is active until its terminal transition is recorded, whatever its status shows. */
    method CountActive() returns (active: nat)
      ensures active == |Active(operations)|
    {
      var left := operations.Keys;
      ghost var counted := {};
      active := 0;
      while left != {}
        invariant left <= operations.Keys && active == |counted|
        invariant counted == Active(operations) - left
        decreases left
      {
        var id :| id in left;
        if !operations[id].op.flags.recorded {
          assert Unfinished(operations, id);
          active := active + 1;
          counted := counted + {id};
        }
        left := left - {id};
      }
    }

    method CreateOperation(id: OperationId, setup: Setup) returns (accepted: bool)
      modifies this
      ensures View() == AfterCreate(old(View()), id, setup)
      ensures accepted <==> |Active(old(operations))| < limits.active
    {
      var active := CountActive();
      if active >= limits.active {
        return false;
      }
      operations := operations[id := Created(setup)];
      created := created + {id};
      return true;
    }

    /** Queues an operation that has just finished and drops the oldest over the limit. */
    method Retire(id: OperationId)
      modifies this
      ensures View() == Retired(old(View()), id)
    {
      terminalIds := terminalIds + [id];
      finished := finished + [id];
      while |terminalIds| > limits.history
        invariant created == old(created) && finished == old(finished) + [id]
        invariant Pruned(operations, terminalIds, limits.history) ==
                  Pruned(old(operations), old(terminalIds) + [id], limits.history)
        decreases |terminalIds|
      {
        var expired := terminalIds[0];
        terminalIds := terminalIds[1..];
        if expired in operations && Terminal(operations[expired].op.flags.status) {
          operations := operations - {expired};
        }
      }
    }

    /** One step of one stored operation. */
    method Act(id: OperationId, event: Event)
      requires id in operations
      modifies this
      ensures View() == AfterAct(old(View()), id, event)
    {
      var was := operations[id];
      var now := Step(was, event, limits.ids);
      operations := operations[id := now];
      if now.op.flags.recorded && !was.op.flags.recorded {
        Retire(id);
      }
    }
  }
}
