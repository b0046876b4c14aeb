/** Admission of capture goals at the recorder. A goal without a requested time first reserves its
    cameras under one lock, is then admitted or rolled back under another, and gives everything back
    when its execution ends. Goals interleave freely between these critical sections. */
module GoalAdmission {

  type GoalId = nat
  type Sensor = string

  /** `timed` goals carry a requested time and do not reserve cameras. */
  datatype Goal = Goal(sensors: seq<Sensor>, requestId: string, timed: bool)

  datatype Phase = Reserving | Accepted | Executing(guarded: seq<Sensor>)

  datatype Entry = Entry(goal: Goal, phase: Phase)

  datatype Admission = Admission(
    limit: nat,                             // max_inflight_captures
    counters: map<Sensor, nat>,             // active_sensor_captures_
    count: nat,                             // active_capture_count_
    ids: set<string>,                       // active_capture_ids_
    goalSensors: map<GoalId, seq<Sensor>>,  // accepted_goal_sensors_
    goals: map<GoalId, Entry>)              // where each unreleased goal is

  function Init(limit: nat): Admission {
    Admission(limit, map[], 0, {}, map[], map[])
  }

  const WRAP: nat := 0xffff_ffff_ffff_ffff

  function Get(counters: map<Sensor, nat>, s: Sensor): nat {
    if s in counters then counters[s] else 0
  }

  function Plus(counters: map<Sensor, nat>, sensors: seq<Sensor>): map<Sensor, nat> {
    if sensors == [] then counters
    else
      var before := Plus(counters, sensors[..|sensors| - 1]);
      var s := sensors[|sensors| - 1];
      before[s := Get(before, s) + 1]
  }

  /** One unsigned decrement; the entry goes when it reaches zero. */
  function Decrement(counters: map<Sensor, nat>, s: Sensor): map<Sensor, nat> {
    if s !in counters then counters
    else if counters[s] == 1 then counters - {s}
    else counters[s := if counters[s] == 0 then WRAP else counters[s] - 1]
  }

  function Minus(counters: map<Sensor, nat>, sensors: seq<Sensor>): map<Sensor, nat> {
    if sensors == [] then counters
    else Decrement(Minus(counters, sensors[..|sensors| - 1]), sensors[|sensors| - 1])
  }

  predicate Busy(counters: map<Sensor, nat>, sensors: seq<Sensor>) {
    exists s :: s in sensors && Get(counters, s) != 0
  }

  // ---------- the steps ----------

  datatype Event =
    | Reserve(id: GoalId, goal: Goal)
    | Admit(id: GoalId)
    | Start(id: GoalId)
    | Release(id: GoalId)

  /** Each goal runs through its own steps in order; goal identifiers are fresh. */
  predicate Enabled(a: Admission, e: Event) {
    match e
    case Reserve(id, _) => id !in a.goals && id !in a.goalSensors
    case Admit(id) => id in a.goals && a.goals[id].phase.Reserving?
    case Start(id) => id in a.goals && a.goals[id].phase.Accepted?
    case Release(id) => id in a.goals && a.goals[id].phase.Executing?
  }

  /** First critical section: a busy camera rejects the goal before it holds anything. */
  function Reserved(a: Admission, id: GoalId, goal: Goal): Admission {
    if goal.timed then a.(goals := a.goals[id := Entry(goal, Reserving)])
    else if Busy(a.counters, goal.sensors) then a
    else a.(counters := Plus(a.counters, goal.sensors), goals := a.goals[id := Entry(goal, Reserving)])
  }

  /** Second critical section: admits the goal, or takes its reservation back. */
  function Admitted(a: Admission, id: GoalId): Admission
    requires id in a.goals
  {
    var goal := a.goals[id].goal;
    if a.count >= a.limit || (goal.requestId != "" && goal.requestId in a.ids) then
      a.(counters := if goal.timed then a.counters else Minus(a.counters, goal.sensors), goals := a.goals - {id})
    else
      a.(count := a.count + 1,
         ids := if goal.requestId != "" then a.ids + {goal.requestId} else a.ids,
         goalSensors := if goal.timed then a.goalSensors else a.goalSensors[id := goal.sensors],
         goals := a.goals[id := Entry(goal, Accepted)])
  }

  /** The execution moves the selected cameras into its guard. */
  function Started(a: Admission, id: GoalId): Admission
    requires id in a.goals
  {
    var goal := a.goals[id].goal;
    var guarded := if !goal.timed && id in a.goalSensors then a.goalSensors[id] else [];
    a.(goalSensors := if goal.timed then a.goalSensors else a.goalSensors - {id},
       goals := a.goals[id := Entry(goal, Executing(guarded))])
  }

  function Released(a: Admission, id: GoalId): Admission
    requires id in a.goals && a.goals[id].phase.Executing?
  {
    var entry := a.goals[id];
    a.(count := if a.count != 0 then a.count - 1 else 0,
       ids := if entry.goal.requestId != "" then a.ids - {entry.goal.requestId} else a.ids,
       counters := if entry.goal.timed then a.counters else Minus(a.counters, entry.phase.guarded),
       goals := a.goals - {id})
  }

  function Step(a: Admission, e: Event): Admission
    requires Enabled(a, e)
  {
    match e
    case Reserve(id, goal) => Reserved(a, id, goal)
    case Admit(id) => Admitted(a, id)
    case Start(id) => Started(a, id)
    case Release(id) => Released(a, id)
  }

  function Run(a: Admission, events: seq<Event>): Admission
    decreases events
  {
    if events == [] then a else Run(if Enabled(a, events[0]) then Step(a, events[0]) else a, events[1..])
  }

  // ---------- the invariant ----------

  predicate Holds(a: Admission, id: GoalId, s: Sensor) {
    id in a.goals && !a.goals[id].goal.timed && s in a.goals[id].goal.sensors
  }

  predicate InFlight(a: Admission, id: GoalId) {
    id in a.goals && !a.goals[id].phase.Reserving?
  }

  predicate InFlightAs(a: Admission, id: GoalId, requestId: string) {
    InFlight(a, id) && a.goals[id].goal.requestId == requestId
  }

  function FlightSet(a: Admission): set<GoalId> {
    set id | id in a.goals && InFlight(a, id)
  }

  /** No camera is held twice, and its counter is what its holder put there. */
  ghost predicate Cameras(a: Admission) {
    && (forall g, h, s :: Holds(a, g, s) && Holds(a, h, s) ==> g == h)
    && (forall g, s :: Holds(a, g, s) ==> Get(a.counters, s) == multiset(a.goals[g].goal.sensors)[s])
    && (forall s :: s in a.counters ==> a.counters[s] > 0 && exists g :: Holds(a, g, s))
  }

  ghost predicate Flights(a: Admission) {
    && a.count == |FlightSet(a)| <= a.limit
    && (forall x :: x in a.ids <==> x != "" && exists g :: InFlightAs(a, g, x))
    && (forall g, h :: InFlight(a, g) && InFlight(a, h) && a.goals[g].goal.requestId == a.goals[h].goal.requestId != "" ==>
          g == h)
  }

  predicate Lists(a: Admission) {
    && (forall g :: g in a.goals && a.goals[g].phase.Accepted? && !a.goals[g].goal.timed ==>
          g in a.goalSensors && a.goalSensors[g] == a.goals[g].goal.sensors)
    && (forall g :: g in a.goals && a.goals[g].phase.Executing? ==>
          a.goals[g].phase.guarded == if a.goals[g].goal.timed then [] else a.goals[g].goal.sensors)
    && (forall g :: g in a.goalSensors ==> g in a.goals && a.goals[g].phase.Accepted? && !a.goals[g].goal.timed)
  }

  ghost predicate Inv(a: Admission) {
    Cameras(a) && Flights(a) && Lists(a)
  }

  // ---------- counters ----------

  lemma {:induction false} PlusAdds(counters: map<Sensor, nat>, sensors: seq<Sensor>, s: Sensor)
    ensures Get(Plus(counters, sensors), s) == Get(counters, s) + multiset(sensors)[s]
    ensures s in Plus(counters, sensors) <==> s in counters || s in sensors
  {
    if sensors != [] {
      var n := |sensors| - 1;
      PlusAdds(counters, sensors[..n], s);
      assert sensors == sensors[..n] + [sensors[n]];
    }
  }

  predicate Positive(counters: map<Sensor, nat>) {
    forall s :: s in counters ==> counters[s] > 0
  }

  lemma {:induction false} MinusSubtracts(counters: map<Sensor, nat>, sensors: seq<Sensor>, s: Sensor)
    requires Positive(counters)
    requires Get(counters, s) >= multiset(sensors)[s]
    ensures Positive(Minus(counters, sensors))
    ensures Get(Minus(counters, sensors), s) == Get(counters, s) - multiset(sensors)[s]
  {
    if sensors != [] {
      var n := |sensors| - 1;
      assert sensors == sensors[..n] + [sensors[n]];
      MinusSubtracts(counters, sensors[..n], s);
    }
  }

  // ---------- every step keeps the invariant ----------

  lemma ReserveKeepsCameras(a: Admission, id: GoalId, goal: Goal)
    requires Cameras(a) && id !in a.goals && !goal.timed && !Busy(a.counters, goal.sensors)
    ensures Cameras(Reserved(a, id, goal))
  {
    var b := Reserved(a, id, goal);
    forall g, s | Holds(b, g, s)
      ensures Get(b.counters, s) == multiset(b.goals[g].goal.sensors)[s]
      ensures g == id || (Holds(a, g, s) && s !in goal.sensors)
    {
      PlusAdds(a.counters, goal.sensors, s);
      if g != id {
        assert Holds(a, g, s);
        assert s in a.goals[g].goal.sensors;
        assert multiset(a.goals[g].goal.sensors)[s] > 0;
      }
    }
    forall s | s in b.counters
      ensures b.counters[s] > 0 && exists g :: Holds(b, g, s)
    {
      PlusAdds(a.counters, goal.sensors, s);
      if s in goal.sensors {
        assert Holds(b, id, s);
      } else {
        var g :| Holds(a, g, s);
        assert Holds(b, g, s);
      }
    }
  }

  /** Giving back exactly what one goal put in removes it from the cameras' books. */
  lemma GiveBackKeepsCameras(a: Admission, b: Admission, id: GoalId)
    requires Cameras(a) && id in a.goals
    requires b.goals == a.goals - {id}
    requires b.counters == if a.goals[id].goal.timed then a.counters else Minus(a.counters, a.goals[id].goal.sensors)
    ensures Cameras(b)
  {
    var goal := a.goals[id].goal;
    forall s: Sensor
      ensures !goal.timed ==> Get(b.counters, s) == Get(a.counters, s) - multiset(goal.sensors)[s]
      ensures goal.timed ==> Get(b.counters, s) == Get(a.counters, s)
      ensures Positive(b.counters)
    {
      if !goal.timed {
        if s in goal.sensors {
          assert Holds(a, id, s);
        }
        MinusSubtracts(a.counters, goal.sensors, s);
      }
    }
    forall g, s | Holds(b, g, s)
      ensures Holds(a, g, s) && Get(b.counters, s) == multiset(b.goals[g].goal.sensors)[s]
    {
      assert Holds(a, g, s);
      if s in goal.sensors && !goal.timed {
        assert Holds(a, id, s);
      }
    }
    forall s | s in b.counters
      ensures exists g :: Holds(b, g, s)
    {
      assert Get(b.counters, s) > 0;
      var g :| Holds(a, g, s);
      assert g == id ==> Get(a.counters, s) == multiset(goal.sensors)[s];
      assert Holds(b, g, s);
    }
  }

  lemma SameCameras(a: Admission, b: Admission)
    requires Cameras(a) && b.counters == a.counters && b.goals.Keys == a.goals.Keys
    requires forall g :: g in a.goals ==> b.goals[g].goal == a.goals[g].goal
    ensures Cameras(b)
  {
    assert forall g, s :: Holds(b, g, s) <==> Holds(a, g, s);
  }

  /** The flights depend on nothing but the goals in flight. */
  lemma SameFlights(a: Admission, b: Admission)
    requires Flights(a) && b.count == a.count && b.limit == a.limit && b.ids == a.ids
    requires forall g :: InFlight(b, g) <==> InFlight(a, g)
    requires forall g :: InFlight(a, g) ==> g in b.goals && b.goals[g].goal == a.goals[g].goal
    ensures Flights(b)
  {
    assert FlightSet(b) == FlightSet(a);
    assert forall g, x :: InFlightAs(b, g, x) <==> InFlightAs(a, g, x);
  }

  lemma ReserveKeeps(a: Admission, id: GoalId, goal: Goal)
    requires Inv(a) && id !in a.goals && id !in a.goalSensors && (goal.timed || !Busy(a.counters, goal.sensors))
    ensures Inv(Reserved(a, id, goal))
  {
    var b := Reserved(a, id, goal);
    if goal.timed {
      TimedReserveKeepsCameras(a, b, id, goal);
    } else {
      ReserveKeepsCameras(a, id, goal);
    }
    ReserveFlights(a, b, id, goal);
    ReserveLists(a, b, id, goal);
  }

  lemma ReserveFlights(a: Admission, b: Admission, id: GoalId, goal: Goal)
    requires Flights(a) && id !in a.goals && (goal.timed || !Busy(a.counters, goal.sensors)) && b == Reserved(a, id, goal)
    ensures Flights(b)
  {
    SameFlights(a, b);
  }

  lemma ReserveLists(a: Admission, b: Admission, id: GoalId, goal: Goal)
    requires Lists(a) && id !in a.goals && id !in a.goalSensors && b == Reserved(a, id, goal)
    ensures Lists(b)
  {
  }

  lemma TimedReserveKeepsCameras(a: Admission, b: Admission, id: GoalId, goal: Goal)
    requires Cameras(a) && goal.timed && id !in a.goals && b == Reserved(a, id, goal)
    ensures Cameras(b)
  {
    assert forall g, s :: Holds(b, g, s) <==> Holds(a, g, s);
  }

  lemma RejectKeeps(a: Admission, id: GoalId)
    requires Inv(a) && id in a.goals && a.goals[id].phase.Reserving?
    requires var goal := a.goals[id].goal; a.count >= a.limit || (goal.requestId != "" && goal.requestId in a.ids)
    ensures Inv(Admitted(a, id))
  {
    var b := Admitted(a, id);
    GiveBackKeepsCameras(a, b, id);
    SameFlights(a, b);
    assert Lists(b);
  }

  predicate Admissible(a: Admission, id: GoalId) {
    && id in a.goals && a.goals[id].phase.Reserving? && a.count < a.limit
    && (a.goals[id].goal.requestId == "" || a.goals[id].goal.requestId !in a.ids)
  }

  lemma AdmitIds(a: Admission, id: GoalId, x: string)
    requires Flights(a) && Admissible(a, id)
    ensures x in Admitted(a, id).ids <==> x != "" && exists g :: InFlightAs(Admitted(a, id), g, x)
  {
    var b := Admitted(a, id);
    if x in b.ids {
      if x in a.ids {
        var g :| InFlightAs(a, g, x);
        assert InFlightAs(b, g, x);
      } else {
        assert InFlightAs(b, id, x);
      }
    } else if g :| x != "" && InFlightAs(b, g, x) {
      assert g != id ==> InFlightAs(a, g, x);
      assert false;
    }
  }

  lemma AdmitFlights(a: Admission, id: GoalId)
    requires Flights(a) && Admissible(a, id)
    ensures Flights(Admitted(a, id))
  {
    var b := Admitted(a, id);
    assert FlightSet(b) == FlightSet(a) + {id};
    forall x: string {
      AdmitIds(a, id, x);
    }
    forall g | InFlight(b, g) && g != id
      ensures InFlight(a, g) && a.goals[g].goal == b.goals[g].goal
      ensures b.goals[id].goal.requestId == "" || b.goals[g].goal.requestId != b.goals[id].goal.requestId
    {
      assert InFlightAs(a, g, a.goals[g].goal.requestId);
    }
  }

  lemma AdmitLists(a: Admission, b: Admission, id: GoalId)
    requires Lists(a) && id in a.goals && a.goals[id].phase.Reserving? && b == Admitted(a, id) && id in b.goals
    ensures Lists(b)
  {
  }

  lemma AdmitKeeps(a: Admission, id: GoalId)
    requires Inv(a) && Admissible(a, id)
    ensures Inv(Admitted(a, id))
  {
    var b := Admitted(a, id);
    AdmitFlights(a, id);
    SameCameras(a, b);
    AdmitLists(a, b, id);
  }

  lemma StartKeeps(a: Admission, id: GoalId)
    requires Inv(a) && id in a.goals && a.goals[id].phase.Accepted?
    ensures Inv(Started(a, id))
  {
    SameCameras(a, Started(a, id));
    SameFlights(a, Started(a, id));
  }

  lemma ReleaseFlights(a: Admission, id: GoalId)
    requires Flights(a) && id in a.goals && a.goals[id].phase.Executing?
    ensures Flights(Released(a, id))
    ensures a.count > 0
  {
    var b := Released(a, id);
    assert id in FlightSet(a);
    assert FlightSet(b) == FlightSet(a) - {id};
    assert forall g :: InFlight(b, g) <==> InFlight(a, g) && g != id;
    forall x | x in b.ids
      ensures x != "" && exists g :: InFlightAs(b, g, x)
    {
      var g :| InFlightAs(a, g, x);
      assert g != id;
      assert InFlightAs(b, g, x);
    }
    forall x, g | x != "" && InFlightAs(b, g, x)
      ensures x in b.ids
    {
      assert InFlightAs(a, g, x) && InFlight(a, id) && g != id;
    }
  }

  lemma ReleaseCameras(a: Admission, id: GoalId)
    requires Cameras(a) && Lists(a) && id in a.goals && a.goals[id].phase.Executing?
    ensures Cameras(Released(a, id))
  {
    GiveBackKeepsCameras(a, Released(a, id), id);
  }

  lemma ReleaseLists(a: Admission, id: GoalId)
    requires Lists(a) && id in a.goals && a.goals[id].phase.Executing?
    ensures Lists(Released(a, id))
  {
  }

  lemma ReleaseKeeps(a: Admission, id: GoalId)
    requires Inv(a) && id in a.goals && a.goals[id].phase.Executing?
    ensures Inv(Released(a, id))
  {
    ReleaseFlights(a, id);
    ReleaseCameras(a, id);
    ReleaseLists(a, id);
  }

  lemma StepKeeps(a: Admission, e: Event)
    requires Inv(a) && Enabled(a, e)
    ensures Inv(Step(a, e))
  {
    match e
    case Reserve(id, goal) =>
      if goal.timed || !Busy(a.counters, goal.sensors) {
        ReserveKeeps(a, id, goal);
      }
    case Admit(id) =>
      var goal := a.goals[id].goal;
      if a.count >= a.limit || (goal.requestId != "" && goal.requestId in a.ids) {
        RejectKeeps(a, id);
      } else {
        AdmitKeeps(a, id);
      }
    case Start(id) => StartKeeps(a, id);
    case Release(id) => ReleaseKeeps(a, id);
  }

  lemma InitHolds(limit: nat)
    ensures Inv(Init(limit))
  {
    assert FlightSet(Init(limit)) == {};
  }

  lemma {:induction false} InterleavingsKeepInvariant(a: Admission, events: seq<Event>)
    requires Inv(a)
    ensures Inv(Run(a, events))
    decreases events
  {
    if events != [] {
      if Enabled(a, events[0]) {
        StepKeeps(a, events[0]);
        InterleavingsKeepInvariant(Step(a, events[0]), events[1..]);
      } else {
        InterleavingsKeepInvariant(a, events[1..]);
      }
    }
  }

  /** The unreleased goals, reserving or in flight, that hold a camera. */
  function Holders(a: Admission, s: Sensor): set<GoalId> {
    set g | g in a.goals && Holds(a, g, s)
  }

  lemma CounterIsHolders(a: Admission, s: Sensor)
    requires Cameras(a)
    ensures (forall g :: g in a.goals ==> multiset(a.goals[g].goal.sensors)[s] <= 1) ==>
              Get(a.counters, s) == |Holders(a, s)| <= 1
  {
    if forall g :: g in a.goals ==> multiset(a.goals[g].goal.sensors)[s] <= 1 {
      if s in a.counters {
        var g: GoalId :| Holds(a, g, s);
        assert Holders(a, s) == {g};
        assert s in a.goals[g].goal.sensors;
      } else {
        forall g | g in a.goals
          ensures !Holds(a, g, s)
        {
          assert s in a.goals[g].goal.sensors ==> multiset(a.goals[g].goal.sensors)[s] > 0;
        }
        assert Holders(a, s) == {};
      }
    }
  }

  // ---------- who is let in ----------

  /** A goal is taken exactly when it carries a time, or no unreleased goal holds one of its cameras. */
  lemma ReserveIsExact(a: Admission, id: GoalId, goal: Goal)
    requires Inv(a) && Enabled(a, Reserve(id, goal))
    ensures id in Step(a, Reserve(id, goal)).goals <==>
      goal.timed || !exists g, s :: Holds(a, g, s) && s in goal.sensors
    ensures id !in Step(a, Reserve(id, goal)).goals ==> Step(a, Reserve(id, goal)) == a
  {
    forall s | s in goal.sensors
      ensures Get(a.counters, s) != 0 <==> exists g :: Holds(a, g, s)
    {
      if g :| Holds(a, g, s) {
        assert multiset(a.goals[g].goal.sensors)[s] > 0;
      }
    }
  }

  /** A goal that was taken is admitted exactly while fewer goals than the limit are in flight and none of them
      has its identifier. A refused goal is gone, and its cameras are held by nobody. */
  lemma AdmitIsExact(a: Admission, id: GoalId)
    requires Inv(a) && Enabled(a, Admit(id))
    ensures var b := Step(a, Admit(id)); var x := a.goals[id].goal.requestId;
            && (InFlight(b, id) <==> |FlightSet(a)| < a.limit && (x == "" || !exists g :: InFlightAs(a, g, x)))
            && (!InFlight(b, id) ==>
                  && id !in b.goals && b.count == a.count && b.ids == a.ids
                  && (!a.goals[id].goal.timed ==> forall s :: s in a.goals[id].goal.sensors ==> Get(b.counters, s) == 0))
  {
    if !InFlight(Step(a, Admit(id)), id) && !a.goals[id].goal.timed {
      forall s | s in a.goals[id].goal.sensors
        ensures Get(Admitted(a, id).counters, s) == 0
      {
        assert Holds(a, id, s);
        MinusUndoes(a, id, s);
      }
    }
  }

  lemma MinusUndoes(a: Admission, id: GoalId, s: Sensor)
    requires Cameras(a) && Holds(a, id, s)
    ensures Get(Minus(a.counters, a.goals[id].goal.sensors), s) == 0
  {
    MinusSubtracts(a.counters, a.goals[id].goal.sensors, s);
  }

  lemma MinusUndoesPlus(counters: map<Sensor, nat>, sensors: seq<Sensor>)
    requires Positive(counters)
    ensures Minus(Plus(counters, sensors), sensors) == counters
  {
    var more := Plus(counters, sensors);
    var back := Minus(more, sensors);
    forall s
      ensures Get(back, s) == Get(counters, s) && Positive(back)
      ensures s in back <==> s in counters
    {
      PlusAdds(counters, sensors, s);
      PlusIsPositive(counters, sensors);
      MinusSubtracts(more, sensors, s);
      assert Get(back, s) > 0 <==> s in back;
    }
    assert forall s :: s in back ==> back[s] == Get(back, s) && counters[s] == Get(counters, s);
  }

  lemma PlusIsPositive(counters: map<Sensor, nat>, sensors: seq<Sensor>)
    requires Positive(counters)
    ensures Positive(Plus(counters, sensors))
  {
    forall s | s in Plus(counters, sensors)
      ensures Plus(counters, sensors)[s] > 0
    {
      PlusAdds(counters, sensors, s);
      assert s in sensors ==> multiset(sensors)[s] > 0;
    }
  }

  /** What a goal counts while it holds its cameras. */
  function WithGoal(counters: map<Sensor, nat>, goal: Goal): map<Sensor, nat> {
    if goal.timed then counters else Plus(counters, goal.sensors)
  }

  lemma GivenBack(counters: map<Sensor, nat>, goal: Goal)
    requires Positive(counters)
    ensures (if goal.timed then counters else Minus(WithGoal(counters, goal), goal.sensors)) == counters
  {
    MinusUndoesPlus(counters, goal.sensors);
  }

  lemma RefusedLeavesNoTrace(a: Admission, b: Admission, id: GoalId, goal: Goal)
    requires Positive(a.counters) && id !in a.goals
    requires b == a.(counters := WithGoal(a.counters, goal), goals := a.goals[id := Entry(goal, Reserving)])
    ensures id !in Admitted(b, id).goals ==> Admitted(b, id) == a
  {
    GivenBack(a.counters, goal);
    assert b.goals - {id} == a.goals;
  }

  lemma ReleasedLeavesNoTrace(a: Admission, b: Admission, id: GoalId, goal: Goal)
    requires Positive(a.counters) && id !in a.goals && id !in a.goalSensors && goal.requestId !in a.ids
    requires b == a.(counters := WithGoal(a.counters, goal), count := a.count + 1,
                     ids := if goal.requestId != "" then a.ids + {goal.requestId} else a.ids,
                     goalSensors := if goal.timed then a.goalSensors else a.goalSensors[id := goal.sensors],
                     goals := a.goals[id := Entry(goal, Accepted)])
    ensures Run(b, [Start(id), Release(id)]) == a
  {
    var guarded := if goal.timed then [] else goal.sensors;
    GivenBack(a.counters, goal);
    RunsTwo(b, Start(id), Release(id));
    assert Started(b, id) == b.(goalSensors := a.goalSensors, goals := a.goals[id := Entry(goal, Executing(guarded))]);
    assert a.goals[id := Entry(goal, Executing(guarded))] - {id} == a.goals;
  }

  lemma GoalLeavesBooksAlone(a: Admission, id: GoalId, goal: Goal)
    requires Positive(a.counters) && "" !in a.ids
    requires Enabled(a, Reserve(id, goal)) && id in Reserved(a, id, goal).goals
    ensures var r := Reserved(a, id, goal); var b := Admitted(r, id);
            if id in b.goals then Run(b, [Start(id), Release(id)]) == a else b == a
  {
    var r := Reserved(a, id, goal);
    RefusedLeavesNoTrace(a, r, id, goal);
    if id in Admitted(r, id).goals {
      ReleasedLeavesNoTrace(a, Admitted(r, id), id, goal);
    }
  }

  /** Whatever is in flight, a goal that is refused leaves no trace, and one that runs from its reservation to
      its release leaves none either. */
  lemma GoalLeavesNoTrace(a: Admission, id: GoalId, goal: Goal)
    requires Inv(a) && Enabled(a, Reserve(id, goal)) && id in Step(a, Reserve(id, goal)).goals
    ensures var b := Step(Step(a, Reserve(id, goal)), Admit(id));
            if id in b.goals then Run(b, [Start(id), Release(id)]) == a else b == a
  {
    GoalLeavesBooksAlone(a, id, goal);
  }

  lemma RunsTwo(a: Admission, e: Event, f: Event)
    requires Enabled(a, e) && Enabled(Step(a, e), f)
    ensures Run(a, [e, f]) == Step(Step(a, e), f)
  {
    assert [e, f][1..] == [f] && [f][1..] == [];
    assert Run(Step(a, e), [f]) == Run(Step(Step(a, e), f), []);
  }

  lemma {:induction false} LimitStays(a: Admission, events: seq<Event>)
    ensures Run(a, events).limit == a.limit
    decreases events
  {
    if events != [] {
      LimitStays(if Enabled(a, events[0]) then Step(a, events[0]) else a, events[1..]);
    }
  }

  /** Over every interleaving: the count is the number of admitted, unreleased goals and never passes
      the limit; the identifiers are exactly theirs, without repeats; admitted untimed goals select
      disjoint cameras; and when goals list each camera once, a camera's counter is the number of
      goals holding it, which is at most one. */
  lemma AdmissionGuarantees(limit: nat, events: seq<Event>, s: Sensor)
    ensures var a := Run(Init(limit), events);
            && a.count == |FlightSet(a)| <= limit
            && (forall x :: x in a.ids <==> x != "" && exists g :: InFlightAs(a, g, x))
            && (forall g, h :: InFlight(a, g) && InFlight(a, h) && g != h && a.goals[g].goal.requestId != "" ==>
                  a.goals[g].goal.requestId != a.goals[h].goal.requestId)
            && (forall g, h, x :: Holds(a, g, x) && Holds(a, h, x) ==> g == h)
            && ((forall g :: g in a.goals ==> multiset(a.goals[g].goal.sensors)[s] <= 1) ==>
                  Get(a.counters, s) == |Holders(a, s)| <= 1)
  {
    InitHolds(limit);
    InterleavingsKeepInvariant(Init(limit), events);
    LimitStays(Init(limit), events);
    CounterIsHolders(Run(Init(limit), events), s);
  }

  // ---------- the recorder's fields ----------

  class GoalGate {
    const limit: nat
    var counters: map<Sensor, nat>
    var count: nat
    var ids: set<string>
    var goalSensors: map<GoalId, seq<Sensor>>
    ghost var goals: map<GoalId, Entry>

    ghost function View(): Admission
      reads this
    {
      Admission(limit, counters, count, ids, goalSensors, goals)
    }

    constructor (limit: nat)
      ensures View() == Init(limit)
    {
      this.limit := limit;
      counters, count, ids, goalSensors, goals := map[], 0, {}, map[], map[];
    }

    /** Under the sensor lock: checks all cameras before it counts any. */
    method ReserveSensors(id: GoalId, goal: Goal) returns (reserved: bool)
      requires id !in goals
      modifies this
      ensures View() == Reserved(old(View()), id, goal)
      ensures reserved <==> goal.timed || !Busy(old(counters), goal.sensors)
    {
      if !goal.timed {
        for i := 0 to |goal.sensors|
          invariant forall k :: 0 <= k < i ==> Get(counters, goal.sensors[k]) == 0
        {
          if goal.sensors[i] in counters && counters[goal.sensors[i]] != 0 {
            assert goal.sensors[i] in goal.sensors && Get(counters, goal.sensors[i]) != 0;
            return false;
          }
        }
        for i := 0 to |goal.sensors|
          invariant counters == Plus(old(counters), goal.sensors[..i])
          invariant goals == old(goals) && count == old(count) && ids == old(ids) && goalSensors == old(goalSensors)
        {
          assert goal.sensors[..i + 1][..i] == goal.sensors[..i];
          counters := counters[goal.sensors[i] := Get(counters, goal.sensors[i]) + 1];
        }
        assert goal.sensors[..|goal.sensors|] == goal.sensors;
      }
      goals := goals[id := Entry(goal, Reserving)];
      return true;
    }

    method GiveBack(sensors: seq<Sensor>)
      modifies this`counters
      ensures counters == Minus(old(counters), sensors)
    {
      for i := 0 to |sensors|
        invariant counters == Minus(old(counters), sensors[..i])
      {
        assert sensors[..i + 1][..i] == sensors[..i];
        var s := sensors[i];
        if s in counters {
          if counters[s] == 1 {
            counters := counters - {s};
          } else {
            counters := counters[s := if counters[s] == 0 then WRAP else counters[s] - 1];
          }
        }
      }
      assert sensors[..|sensors|] == sensors;
    }

    /** Under the active-capture lock. */
    method AdmitGoal(id: GoalId, goal: Goal) returns (accepted: bool)
      requires id in goals && goals[id].goal == goal
      modifies this
      ensures View() == Admitted(old(View()), id)
      ensures accepted <==> count == old(count) + 1
    {
      if count >= limit || (goal.requestId != "" && goal.requestId in ids) {
        if !goal.timed {
          GiveBack(goal.sensors);
        }
        goals := goals - {id};
        return false;
      }
      count := count + 1;
      if goal.requestId != "" {
        ids := ids + {goal.requestId};
      }
      if !goal.timed {
        goalSensors := goalSensors[id := goal.sensors];
      }
      goals := goals[id := Entry(goal, Accepted)];
      return true;
    }

    method StartExecution(id: GoalId, goal: Goal) returns (guarded: seq<Sensor>)
      requires id in goals && goals[id].goal == goal
      modifies this
      ensures View() == Started(old(View()), id) && goals[id].phase == Executing(guarded)
    {
      guarded := [];
      if !goal.timed && id in goalSensors {
        guarded := goalSensors[id];
        goalSensors := goalSensors - {id};
      }
      assert id !in goalSensors || goal.timed;
      goals := goals[id := Entry(goal, Executing(guarded))];
      assert goal.timed || goalSensors == old(goalSensors) - {id};
    }

    /** The guard's release, at the end of the execution. */
    method ReleaseGoal(id: GoalId, goal: Goal, guarded: seq<Sensor>)
      requires id in goals && goals[id] == Entry(goal, Executing(guarded))
      modifies this
      ensures View() == Released(old(View()), id)
    {
      if count != 0 {
        count := count - 1;
      }
      if goal.requestId != "" {
        ids := ids - {goal.requestId};
      }
      if !goal.timed {
        GiveBack(guarded);
      }
      goals := goals - {id};
    }
  }
}
