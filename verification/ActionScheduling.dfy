/** The scheduling phase of a capture request at the GenICam provider: the requested system time is
    converted once to a PTP action time, the action is refused when it comes too close to another one
    of the same camera, and each camera is sent its scheduled action command. Two maps with eviction
    stand in for the whole history. Times are nanoseconds. */
module ActionScheduling {
  import opened Optional
  import opened FrameTimestamp

  type Sensor = string

  const SECOND: nat := 1_000_000_000
  const MARGIN: nat := 20_000_000
  const HORIZON: nat := 5_000_000_000

  /** One capture request, with everything the callback reads while it holds the scheduling lock. */
  datatype Call = Call(
    requested: Option<nat>,      // system time asked for
    clock: int,                  // system clock when the request is checked
    evictionClock: int,          // system clock read again after a conversion
    offsets: seq<int>,           // clock offsets of all PTP-locked cameras
    locking: bool,               // some PTP member is not locked
    targets: seq<Sensor>,        // the PTP-locked members
    cameraTime: nat,             // the latest camera clock among the targets
    lead: nat,                   // configured lead time
    failing: set<Sensor>)        // targets whose command cannot be sent

  datatype Command = Command(time: nat, sensor: Sensor)
  datatype Conversion = Conversion(requested: nat, time: nat)

  datatype Scheduler = Scheduler(
    memo: map<nat, nat>,                 // scheduled_action_times_
    reserved: map<nat, set<Sensor>>,     // scheduled_sensor_actions_
    converted: seq<Conversion>,          // history: every successful conversion
    actions: set<nat>,                   // history: every action time that was dispatched
    sent: seq<Command>)                  // history: every command that was sent successfully

  const Empty: Scheduler := Scheduler(map[], map[], [], {}, [])

  // ---------- conversion to the common PTP clock ----------

  function Remember(memo: map<nat, nat>, clock: int): map<nat, nat> {
    map k | k in memo && k >= clock - SECOND :: memo[k]
  }

  /** None stands for the two conversion errors. */
  function Convert(memo: map<nat, nat>, requested: nat, offsets: seq<int>): Option<nat> {
    if requested in memo then Some(memo[requested]) else Shifted(requested, MedianClockOffset(offsets))
  }

  function Shifted(requested: nat, offset: Option<int>): Option<nat> {
    if offset.None? || requested + offset.value <= 0 then None else Some(requested + offset.value)
  }

  function Converted(s: Scheduler, requested: nat, call: Call): Scheduler {
    match Convert(s.memo, requested, call.offsets)
    case None => s
    case Some(time) =>
      s.(memo := if requested in s.memo then s.memo else Remember(s.memo[requested := time], call.evictionClock),
         converted := s.converted + [Conversion(requested, time)])
  }

  datatype Decision = Reject | NoAction | ActAt(time: nat)

  function Decide(s: Scheduler, call: Call): (Decision, Scheduler) {
    if call.locking then (Reject, s)
    else
      match call.requested
      case None => (if call.targets == [] then NoAction else ActAt(call.cameraTime + call.lead), s)
      case Some(requested) =>
        if requested - call.clock < MARGIN || requested - call.clock > HORIZON then (Reject, s)
        else if call.targets == [] then (NoAction, s)
        else
          match Convert(s.memo, requested, call.offsets)
          case None => (Reject, s)
          case Some(time) =>
            (if time < call.cameraTime + MARGIN then Reject else ActAt(time), Converted(s, requested, call))
  }

  // ---------- conflict check and dispatch ----------

  predicate Free(reserved: map<nat, set<Sensor>>, time: nat, targets: seq<Sensor>, minimum: Sensor -> nat) {
    forall sensor, t :: sensor in targets && t in reserved && t != time && sensor in reserved[t] ==>
      !Conflict(time, t, minimum(sensor))
  }

  function At(reserved: map<nat, set<Sensor>>, time: nat): set<Sensor> {
    if time in reserved then reserved[time] else {}
  }

  /** The commands sent for one action, in target order: sensors already told are skipped. */
  function Sends(already: set<Sensor>, time: nat, targets: seq<Sensor>, failing: set<Sensor>): seq<Command>
    decreases targets
  {
    if targets == [] then []
    else if targets[0] in already || targets[0] in failing then Sends(already, time, targets[1..], failing)
    else [Command(time, targets[0])] + Sends(already + {targets[0]}, time, targets[1..], failing)
  }

  function Told(sends: seq<Command>): set<Sensor> {
    set c | c in sends :: c.sensor
  }

  function Retain(reserved: map<nat, set<Sensor>>, time: nat): map<nat, set<Sensor>> {
    map t | t in reserved && t + SECOND >= time :: reserved[t]
  }

  function Dispatch(s: Scheduler, time: nat, targets: seq<Sensor>, failing: set<Sensor>): Scheduler {
    var sends := Sends(At(s.reserved, time), time, targets, failing);
    s.(reserved := Retain(s.reserved[time := At(s.reserved, time) + Told(sends)], time),
       actions := s.actions + {time},
       sent := s.sent + sends)
  }

  function Capture(s: Scheduler, call: Call, minimum: Sensor -> nat): Scheduler {
    var (decision, s') := Decide(s, call);
    match decision
    case ActAt(time) =>
      if call.targets != [] && Free(s'.reserved, time, call.targets, minimum)
      then Dispatch(s', time, call.targets, call.failing) else s'
    case _ => s'
  }

  function Run(s: Scheduler, calls: seq<Call>, minimum: Sensor -> nat): Scheduler
    decreases calls
  {
    if calls == [] then s else Run(Capture(s, calls[0], minimum), calls[1..], minimum)
  }

  // ---------- one requested time, one action time ----------

  predicate SameTimeSameAction(converted: seq<Conversion>) {
    forall i, j :: 0 <= i < |converted| && 0 <= j < |converted| && converted[i].requested == converted[j].requested ==>
      converted[i].time == converted[j].time
  }

  /** A conversion that the memo forgot is more than a second behind the highest eviction clock so far. */
  predicate Memorized(s: Scheduler, high: int) {
    && SameTimeSameAction(s.converted)
    && (forall c :: c in s.converted ==>
          if c.requested in s.memo then s.memo[c.requested] == c.time else c.requested < high - SECOND)
    && (forall r :: r in s.memo ==> Conversion(r, s.memo[r]) in s.converted)
  }

  /** When a request is checked, the system clock is never more than `drift` behind a value that an earlier
      request evicted with. */
  predicate BoundedDrift(calls: seq<Call>, drift: nat) {
    forall i, j :: 0 <= i < j < |calls| ==> calls[i].evictionClock - drift <= calls[j].clock
  }

  function Higher(a: int, b: int): int {
    if a < b then b else a
  }

  lemma ConvertMemorizes(s: Scheduler, high: int, requested: nat, call: Call)
    requires Memorized(s, high) && requested >= high - SECOND
    ensures Memorized(Converted(s, requested, call), Higher(high, call.evictionClock))
  {
    var t := Converted(s, requested, call);
    if t != s {
      var last := Conversion(requested, Convert(s.memo, requested, call.offsets).value);
      ConvertedAgrees(s, high, last);
      assert last in t.converted;
      assert forall c :: c in t.converted ==> c in s.converted || c == last;
      assert forall c :: c in s.converted ==> c in t.converted;
    }
  }

  /** Appending a conversion of a time that the memo still knows, or that was never converted. */
  lemma ConvertedAgrees(s: Scheduler, high: int, last: Conversion)
    requires Memorized(s, high) && last.requested >= high - SECOND
    requires last.requested in s.memo ==> s.memo[last.requested] == last.time
    ensures SameTimeSameAction(s.converted + [last])
  {
    forall c | c in s.converted && c.requested == last.requested
      ensures c.time == last.time
    {
      assert last.requested in s.memo;
    }
  }

  /** Dispatching does not touch the conversions. */
  lemma CaptureConverts(s: Scheduler, call: Call, minimum: Sensor -> nat)
    ensures var t := Decide(s, call).1;
            Capture(s, call, minimum).memo == t.memo && Capture(s, call, minimum).converted == t.converted
  {
  }

  /** A request leaves the conversions alone or makes one, of a time in the accepted range. */
  lemma DecideConverts(s: Scheduler, call: Call)
    ensures Decide(s, call).1 == s ||
      (&& call.requested.Some? && call.requested.value - call.clock >= MARGIN
       && Decide(s, call).1 == Converted(s, call.requested.value, call))
  {
  }

  lemma SameConversionsMemorized(s: Scheduler, t: Scheduler, low: int, high: int)
    requires Memorized(s, low) && t.memo == s.memo && t.converted == s.converted && low <= high
    ensures Memorized(t, high)
  {
  }

  lemma CaptureMemorizes(s: Scheduler, high: int, call: Call, minimum: Sensor -> nat)
    requires Memorized(s, high) && high - (SECOND + MARGIN) <= call.clock
    ensures Memorized(Capture(s, call, minimum), Higher(high, call.evictionClock))
  {
    CaptureConverts(s, call, minimum);
    DecideConverts(s, call);
    var t := Decide(s, call).1;
    if t == s {
      SameConversionsMemorized(s, Capture(s, call, minimum), high, Higher(high, call.evictionClock));
    } else {
      ConvertMemorizes(s, high, call.requested.value, call);
      SameConversionsMemorized(t, Capture(s, call, minimum), Higher(high, call.evictionClock),
                               Higher(high, call.evictionClock));
    }
  }

  lemma {:induction false} RunMemorizes(s: Scheduler, high: int, calls: seq<Call>, minimum: Sensor -> nat)
    requires Memorized(s, high) && BoundedDrift(calls, SECOND + MARGIN)
    requires forall j :: 0 <= j < |calls| ==> high - (SECOND + MARGIN) <= calls[j].clock
    ensures SameTimeSameAction(Run(s, calls, minimum).converted)
    decreases calls
  {
    if calls != [] {
      CaptureMemorizes(s, high, calls[0], minimum);
      RunMemorizes(Capture(s, calls[0], minimum), Higher(high, calls[0].evictionClock), calls[1..], minimum);
    }
  }

  /** However the cameras' offsets move between requests, two requests for the same system time are
      converted to the same action time, even when the clock is set back by up to a second and 20 ms:
      eviction never loses a time that can still be asked for. */
  lemma SameRequestSameAction(calls: seq<Call>, minimum: Sensor -> nat)
    requires BoundedDrift(calls, SECOND + MARGIN)
    ensures SameTimeSameAction(Run(Empty, calls, minimum).converted)
  {
    if calls != [] {
      var call := calls[0];
      CaptureMemorizes(Empty, if call.clock < call.evictionClock then call.clock else call.evictionClock, call, minimum);
      RunMemorizes(Capture(Empty, call, minimum), call.evictionClock, calls[1..], minimum);
    }
  }

  // ---------- distance between the actions of one camera ----------

  /** Any two commands sent to one camera are for times at least its minimum apart, and no command
      is sent twice. */
  predicate KeepsDistance(sent: seq<Command>, minimum: Sensor -> nat) {
    forall i, j :: 0 <= i < j < |sent| && sent[i].sensor == sent[j].sensor ==>
      && sent[i].time != sent[j].time
      && !Conflict(sent[i].time, sent[j].time, minimum(sent[i].sensor))
  }

  /** A command is still reserved, or an action more than a second later has evicted it. */
  predicate Recorded(s: Scheduler) {
    && (forall c :: c in s.sent ==>
          || (c.time in s.reserved && c.sensor in s.reserved[c.time])
          || exists t :: t in s.actions && c.time + SECOND < t)
    && (forall t :: t in s.reserved ==> t in s.actions)
  }

  /** An action is at most `lag` behind every earlier one. */
  predicate Lags(s: Scheduler, call: Call, lag: nat) {
    var (decision, _) := Decide(s, call);
    decision.ActAt? ==> forall t :: t in s.actions ==> t <= decision.time + lag
  }

  predicate AllLag(s: Scheduler, calls: seq<Call>, lag: nat, minimum: Sensor -> nat)
    decreases calls
  {
    calls != [] ==> Lags(s, calls[0], lag) && AllLag(Capture(s, calls[0], minimum), calls[1..], lag, minimum)
  }

  /** A dispatched action is not so far behind any earlier one that its neighbours may be forgotten. */
  predicate Prompt(s: Scheduler, call: Call, minimum: Sensor -> nat) {
    var (decision, _) := Decide(s, call);
    decision.ActAt? ==>
      forall sensor, t :: sensor in call.targets && t in s.actions ==>
        t + minimum(sensor) <= decision.time + SECOND + 1
  }

  predicate AllPrompt(s: Scheduler, calls: seq<Call>, minimum: Sensor -> nat)
    decreases calls
  {
    calls != [] ==> Prompt(s, calls[0], minimum) && AllPrompt(Capture(s, calls[0], minimum), calls[1..], minimum)
  }

  lemma {:induction false} SendsAreNew(already: set<Sensor>, time: nat, targets: seq<Sensor>, failing: set<Sensor>)
    ensures var sends := Sends(already, time, targets, failing);
            && (forall c :: c in sends ==> c.time == time && c.sensor in targets && c.sensor !in already)
            && (forall i, j :: 0 <= i < j < |sends| ==> sends[i].sensor != sends[j].sensor)
    decreases targets
  {
    if targets != [] {
      assert forall x :: x in targets[1..] ==> x in targets;
      if targets[0] in already || targets[0] in failing {
        SendsAreNew(already, time, targets[1..], failing);
      } else {
        SendsAreNew(already + {targets[0]}, time, targets[1..], failing);
      }
    }
  }

  /** A new command keeps its distance from every command of the history. */
  lemma NewCommandKeepsDistance(
    s: Scheduler, time: nat, targets: seq<Sensor>, minimum: Sensor -> nat, old': Command, sensor: Sensor)
    requires Recorded(s) && Free(s.reserved, time, targets, minimum) && old' in s.sent && old'.sensor == sensor
    requires sensor in targets && sensor !in At(s.reserved, time) && minimum(sensor) > 0
    requires forall t :: t in s.actions ==> t + minimum(sensor) <= time + SECOND + 1
    ensures old'.time != time && !Conflict(old'.time, time, minimum(sensor))
  {
    if old'.time in s.reserved && sensor in s.reserved[old'.time] {
      assert old'.time != time ==> !Conflict(time, old'.time, minimum(sensor));
    }
  }

  lemma DispatchKeepsDistance(
    s: Scheduler, time: nat, targets: seq<Sensor>, failing: set<Sensor>, minimum: Sensor -> nat)
    requires Recorded(s) && KeepsDistance(s.sent, minimum) && Free(s.reserved, time, targets, minimum)
    requires forall sensor :: minimum(sensor) > 0
    requires forall sensor, t :: sensor in targets && t in s.actions ==> t + minimum(sensor) <= time + SECOND + 1
    ensures KeepsDistance(Dispatch(s, time, targets, failing).sent, minimum)
  {
    var sends := Sends(At(s.reserved, time), time, targets, failing);
    SendsAreNew(At(s.reserved, time), time, targets, failing);
    var sent := s.sent + sends;
    forall i, j | 0 <= i < j < |sent| && sent[i].sensor == sent[j].sensor
      ensures sent[i].time != sent[j].time && !Conflict(sent[i].time, sent[j].time, minimum(sent[i].sensor))
    {
      if j >= |s.sent| {
        assert sent[j] == sends[j - |s.sent|] && sent[j] in sends;
        if i < |s.sent| {
          assert sent[i] == s.sent[i] && sent[i] in s.sent;
          NewCommandKeepsDistance(s, time, targets, minimum, sent[i], sent[j].sensor);
        }
      }
    }
  }

  lemma DispatchRecords(s: Scheduler, time: nat, targets: seq<Sensor>, failing: set<Sensor>)
    requires Recorded(s)
    ensures Recorded(Dispatch(s, time, targets, failing))
  {
    var t := Dispatch(s, time, targets, failing);
    var sends := Sends(At(s.reserved, time), time, targets, failing);
    SendsAreNew(At(s.reserved, time), time, targets, failing);
    forall c | c in t.sent
      ensures || (c.time in t.reserved && c.sensor in t.reserved[c.time])
              || exists x :: x in t.actions && c.time + SECOND < x
    {
      if c in sends {
        assert c.sensor in Told(sends);
      } else {
        assert c in s.sent;
        if c.time in s.reserved && c.sensor in s.reserved[c.time] {
          if c.time + SECOND < time {
            assert time in t.actions;
          }
        } else {
          var x :| x in s.actions && c.time + SECOND < x;
          assert x in t.actions;
        }
      }
    }
  }

  lemma CaptureKeepsDistance(s: Scheduler, call: Call, minimum: Sensor -> nat)
    requires Recorded(s) && KeepsDistance(s.sent, minimum) && Prompt(s, call, minimum)
    requires forall sensor :: minimum(sensor) > 0
    ensures Recorded(Capture(s, call, minimum)) && KeepsDistance(Capture(s, call, minimum).sent, minimum)
  {
    var (decision, s') := Decide(s, call);
    assert s'.sent == s.sent && s'.reserved == s.reserved && s'.actions == s.actions;
    if decision.ActAt? && call.targets != [] && Free(s'.reserved, decision.time, call.targets, minimum) {
      DispatchKeepsDistance(s', decision.time, call.targets, call.failing, minimum);
      DispatchRecords(s', decision.time, call.targets, call.failing);
    }
  }

  lemma {:induction false} RunKeepsDistance(s: Scheduler, calls: seq<Call>, minimum: Sensor -> nat)
    requires Recorded(s) && KeepsDistance(s.sent, minimum) && AllPrompt(s, calls, minimum)
    requires forall sensor :: minimum(sensor) > 0
    ensures KeepsDistance(Run(s, calls, minimum).sent, minimum)
    decreases calls
  {
    if calls != [] {
      CaptureKeepsDistance(s, calls[0], minimum);
      RunKeepsDistance(Capture(s, calls[0], minimum), calls[1..], minimum);
    }
  }

  /** Over a whole run, however much of the history was evicted: as long as no action lags more than a
      second (less the camera's minimum) behind an earlier one, every two capture commands of a camera
      are at least its minimum apart and none is sent twice. */
  lemma WholeRunKeepsDistance(calls: seq<Call>, minimum: Sensor -> nat)
    requires AllPrompt(Empty, calls, minimum) && forall sensor :: minimum(sensor) > 0
    ensures KeepsDistance(Run(Empty, calls, minimum).sent, minimum)
  {
    RunKeepsDistance(Empty, calls, minimum);
  }

  // ---------- where the limits are ----------

  lemma {:induction false} SmallLagIsPrompt(s: Scheduler, calls: seq<Call>, lag: nat, minimum: Sensor -> nat)
    requires AllLag(s, calls, lag, minimum) && forall sensor :: lag + minimum(sensor) <= SECOND + 1
    ensures AllPrompt(s, calls, minimum)
    decreases calls
  {
    if calls != [] {
      SmallLagIsPrompt(Capture(s, calls[0], minimum), calls[1..], lag, minimum);
    }
  }

  lemma OneOffset(offset: int)
    ensures MedianClockOffset([offset]) == Some(offset)
  {
    SortedIsUnique(Sorted([offset]), [offset]);
  }

  /** A request of one camera when the clocks agree. */
  function Plain(clock: int, time: nat, sensor: Sensor): Call {
    Call(Some(time), clock, clock, [0], false, [sensor], 0, 0, {})
  }

  /** Such a request is dispatched when its time has no conflict and the camera has no command for it. */
  lemma PlainCapture(s: Scheduler, clock: int, time: nat, sensor: Sensor, minimum: Sensor -> nat)
    requires MARGIN <= time && clock + MARGIN <= time <= clock + HORIZON
    requires (time in s.memo ==> s.memo[time] == time) && sensor !in At(s.reserved, time)
    requires Free(s.reserved, time, [sensor], minimum)
    ensures Decide(s, Plain(clock, time, sensor)).0 == ActAt(time)
    ensures var t := Capture(s, Plain(clock, time, sensor), minimum);
            && t.converted == s.converted + [Conversion(time, time)]
            && t.memo == (if time in s.memo then s.memo else Remember(s.memo[time := time], clock))
            && t.sent == s.sent + [Command(time, sensor)]
            && t.actions == s.actions + {time}
            && (time !in s.reserved ==> t.reserved == Retain(s.reserved[time := {sensor}], time))
  {
    OneOffset(0);
    assert Sends(At(s.reserved, time), time, [sensor], {}) == [Command(time, sensor)];
    assert {} + Told([Command(time, sensor)]) == {sensor};
  }

  /** Three requests in a row. */
  lemma RunThree(a: Call, b: Call, c: Call, s1: Scheduler, s2: Scheduler, lag: nat, minimum: Sensor -> nat)
    returns (calls: seq<Call>)
    requires s1 == Capture(Empty, a, minimum) && s2 == Capture(s1, b, minimum)
    ensures calls == [a, b, c] && Run(Empty, calls, minimum) == Capture(s2, c, minimum)
    ensures Lags(s1, b, lag) && Lags(s2, c, lag) ==> AllLag(Empty, calls, lag, minimum)
  {
    calls := [a, b, c];
    assert calls[1..] == [b, c] && [b, c][1..] == [c] && [c][1..] == [];
    var s3 := Capture(s2, c, minimum);
    assert Run(s2, [c], minimum) == Run(s3, [], minimum);
    assert Run(s1, [b, c], minimum) == Run(s2, [c], minimum);
    assert AllLag(s3, [], lag, minimum);
    assert Lags(s2, c, lag) ==> AllLag(s2, [c], lag, minimum);
    assert Lags(s1, b, lag) && Lags(s2, c, lag) ==> AllLag(s1, [b, c], lag, minimum);
  }

  lemma TooClose(sent: seq<Command>, first: Command, last: Command, minimum: Sensor -> nat)
    requires sent != [] && sent[0] == first && first.sensor == last.sensor
    requires first.time == last.time || Conflict(first.time, last.time, minimum(first.sensor))
    ensures !KeepsDistance(sent + [last], minimum)
  {
    var all := sent + [last];
    assert all[0] == first && all[|sent|] == last;
  }

  lemma FirstAction(clock: int, first: nat, sensor: Sensor, minimum: Sensor -> nat) returns (s1: Scheduler)
    requires MARGIN <= first && clock + MARGIN <= first <= clock + HORIZON
    ensures s1 == Capture(Empty, Plain(clock, first, sensor), minimum)
    ensures s1 == Scheduler(Remember(map[first := first], clock), map[first := {sensor}], [Conversion(first, first)],
                            {first}, [Command(first, sensor)])
  {
    PlainCapture(Empty, clock, first, sensor, minimum);
    s1 := Capture(Empty, Plain(clock, first, sensor), minimum);
  }

  lemma NothingBefore(first: nat, last: nat, sensor: Sensor, other: Sensor)
    requires first + SECOND < last
    ensures Retain(map[first := {sensor}, last := {other}], last) == map[last := {other}]
  {
  }

  lemma SecondAction(s1: Scheduler, late: int, first: nat, last: nat, sensor: Sensor, other: Sensor,
                     minimum: Sensor -> nat) returns (s2: Scheduler)
    requires sensor != other && first + SECOND < last && MARGIN <= last && late + MARGIN <= last <= late + HORIZON
    requires s1.reserved == map[first := {sensor}] && s1.memo.Keys <= {first}
    ensures s2 == Capture(s1, Plain(late, last, other), minimum)
    ensures Decide(s1, Plain(late, last, other)).0 == ActAt(last)
    ensures s2.sent == s1.sent + [Command(last, other)] && s2.actions == s1.actions + {last}
    ensures s2.reserved == map[last := {other}] && s2.memo == Remember(s1.memo[last := last], late)
    ensures s2.converted == s1.converted + [Conversion(last, last)]
  {
    assert last !in s1.memo && last !in s1.reserved && At(s1.reserved, last) == {};
    assert Free(s1.reserved, last, [other], minimum);
    PlainCapture(s1, late, last, other, minimum);
    NothingBefore(first, last, sensor, other);
    s2 := Capture(s1, Plain(late, last, other), minimum);
  }

  /** After an action more than a second later, the schedule knows nothing of the first command. */
  lemma LaterActionEvicts(
    clock: int, late: int, first: nat, last: nat, sensor: Sensor, other: Sensor, minimum: Sensor -> nat)
    returns (s1: Scheduler, s2: Scheduler)
    requires sensor != other && first + SECOND < last && MARGIN <= first
    requires clock + MARGIN <= first <= clock + HORIZON && late + MARGIN <= last <= late + HORIZON
    ensures s1 == Capture(Empty, Plain(clock, first, sensor), minimum) && s1.actions == {first}
    ensures s2 == Capture(s1, Plain(late, last, other), minimum) && s2.actions == {first, last}
    ensures Decide(s1, Plain(late, last, other)).0 == ActAt(last)
    ensures s2.sent == [Command(first, sensor), Command(last, other)]
    ensures s2.reserved == map[last := {other}]
    ensures s2.memo == Remember(Remember(map[first := first], clock)[last := last], late)
    ensures s2.converted == [Conversion(first, first), Conversion(last, last)]
  {
    s1 := FirstAction(clock, first, sensor, minimum);
    s2 := SecondAction(s1, late, first, last, sensor, other, minimum);
  }

  ghost predicate LagKeepsDistance(lag: nat, minimum: Sensor -> nat) {
    forall calls :: AllLag(Empty, calls, lag, minimum) ==> KeepsDistance(Run(Empty, calls, minimum).sent, minimum)
  }

  /** A third request finds only the other camera's action in the schedule. */
  lemma ThirdCommand(s: Scheduler, clock: int, first: nat, last: nat, time: nat, sensor: Sensor, other: Sensor,
                     minimum: Sensor -> nat)
    requires s.sent == [Command(first, sensor), Command(last, other)] && s.reserved == map[last := {other}]
    requires sensor != other && MARGIN <= time && clock + MARGIN <= time <= clock + HORIZON
    requires time in s.memo ==> s.memo[time] == time
    requires first == time || Conflict(first, time, minimum(sensor))
    ensures Decide(s, Plain(clock, time, sensor)).0 == ActAt(time)
    ensures !KeepsDistance(Capture(s, Plain(clock, time, sensor), minimum).sent, minimum)
  {
    PlainCapture(s, clock, time, sensor, minimum);
    TooClose(s.sent, Command(first, sensor), Command(time, sensor), minimum);
  }

  /** A run of three requests, each inside the accepted time range and none more than `lag` behind, that
      sends one camera two commands too close together, or one command twice. */
  lemma LargeLagCrowds(lag: nat, sensor: Sensor, minimum: Sensor -> nat) returns (calls: seq<Call>)
    requires lag + minimum(sensor) > SECOND + 1
    ensures AllLag(Empty, calls, lag, minimum) && !KeepsDistance(Run(Empty, calls, minimum).sent, minimum)
  {
    var other := sensor + "'";
    var clock, last := SECOND, 4 * SECOND;
    var first := last - SECOND - 1;
    var second := if lag <= SECOND then last - lag else first;
    var s1, s2 := LaterActionEvicts(clock, clock, first, last, sensor, other, minimum);
    ThirdCommand(s2, clock, first, last, second, sensor, other, minimum);
    calls := RunThree(Plain(clock, first, sensor), Plain(clock, last, other), Plain(clock, second, sensor), s1, s2, lag,
                      minimum);
  }

  /** How far an action may lag behind an earlier one: every run within the lag keeps every camera's
      commands its minimum apart exactly when the lag and the largest minimum fit into the second for
      which the schedule remembers. */
  lemma LagBoundIsExact(lag: nat, sensor: Sensor, minimum: Sensor -> nat)
    requires forall x :: 0 < minimum(x) <= minimum(sensor)
    ensures LagKeepsDistance(lag, minimum) <==> lag + minimum(sensor) <= SECOND + 1
  {
    if lag + minimum(sensor) <= SECOND + 1 {
      forall calls | AllLag(Empty, calls, lag, minimum)
        ensures KeepsDistance(Run(Empty, calls, minimum).sent, minimum)
      {
        SmallLagIsPrompt(Empty, calls, lag, minimum);
        WholeRunKeepsDistance(calls, minimum);
      }
    } else {
      var calls := LargeLagCrowds(lag, sensor, minimum);
    }
  }

  lemma TwoAnswers(converted: seq<Conversion>, first: Conversion, last: Conversion)
    requires converted != [] && converted[0] == first
    requires first.requested == last.requested && first.time != last.time
    ensures !SameTimeSameAction(converted + [last])
  {
    var all := converted + [last];
    assert all[0] == first && all[|converted|] == last;
  }

  lemma LateConversion(s: Scheduler, call: Call, time: nat, minimum: Sensor -> nat)
    requires call == Plain(time - MARGIN, time, "camera").(offsets := [1]) && time !in s.memo
    ensures Capture(s, call, minimum).converted == s.converted + [Conversion(time, time + 1)]
  {
    OneOffset(1);
  }

  ghost predicate DriftKeepsMemo(drift: nat, minimum: Sensor -> nat) {
    forall calls :: BoundedDrift(calls, drift) ==> SameTimeSameAction(Run(Empty, calls, minimum).converted)
  }

  /** A memo that last evicted more than a second after a time has forgotten it, and converts it anew. */
  lemma ForgottenTime(s: Scheduler, memo: map<nat, nat>, late: int, time: nat, second: Conversion, minimum: Sensor -> nat)
    requires s.memo == Remember(memo, late) && time < late - SECOND && MARGIN <= time
    requires s.converted == [Conversion(time, time), second]
    ensures var again := Plain(time - MARGIN, time, "camera").(offsets := [1]);
            !SameTimeSameAction(Capture(s, again, minimum).converted)
  {
    LateConversion(s, Plain(time - MARGIN, time, "camera").(offsets := [1]), time, minimum);
    TwoAnswers(s.converted, Conversion(time, time), Conversion(time, time + 1));
  }

  lemma ThreeWithin(a: Call, b: Call, c: Call, drift: nat)
    requires a.evictionClock - drift <= b.clock && a.evictionClock - drift <= c.clock
    requires b.evictionClock - drift <= c.clock
    ensures BoundedDrift([a, b, c], drift)
  {
  }

  /** A clock set back by one nanosecond more: the memo forgets a time that is then asked for again. */
  lemma LargeDriftForgets(drift: nat, minimum: Sensor -> nat) returns (calls: seq<Call>)
    requires drift > SECOND + MARGIN
    ensures BoundedDrift(calls, drift) && !SameTimeSameAction(Run(Empty, calls, minimum).converted)
  {
    var clock, time := SECOND, SECOND + MARGIN;
    var late := time + SECOND + 1;
    var last := late + MARGIN;
    var a, b := Plain(clock, time, "camera"), Plain(late, last, "other");
    var c := a.(offsets := [1]);
    var s1, s2 := LaterActionEvicts(clock, late, time, last, "camera", "other", minimum);
    ForgottenTime(s2, Remember(map[time := time], clock)[last := last], late, time, Conversion(last, last), minimum);
    calls := RunThree(a, b, c, s1, s2, 0, minimum);
    ThreeWithin(a, b, c, drift);
  }

  /** How far the system clock may be set back: every run with at most that drift converts equal requests
      equally exactly when the drift is within the second the memo remembers and the 20 ms a request must
      lie in the future. */
  lemma DriftBoundIsExact(drift: nat, minimum: Sensor -> nat)
    ensures DriftKeepsMemo(drift, minimum) <==> drift <= SECOND + MARGIN
  {
    if drift <= SECOND + MARGIN {
      forall calls | BoundedDrift(calls, drift)
        ensures SameTimeSameAction(Run(Empty, calls, minimum).converted)
      {
        SameRequestSameAction(calls, minimum);
      }
    } else {
      var calls := LargeDriftForgets(drift, minimum);
    }
  }

  // ---------- who is told, and when ----------

  /** A camera is told now or was told before exactly when it was, or is a target that can be reached. */
  lemma {:induction false} SendsReach(already: set<Sensor>, time: nat, targets: seq<Sensor>, failing: set<Sensor>,
                                      x: Sensor)
    ensures x in already || Command(time, x) in Sends(already, time, targets, failing) <==>
      x in already || (x in targets && x !in failing)
    decreases targets
  {
    if targets != [] {
      var first, rest := targets[0], targets[1..];
      assert x in targets <==> x == first || x in rest;
      SendsReach(if first in already || first in failing then already else already + {first}, time, rest, failing, x);
    }
  }

  /** The capture passes every check of the scheduling phase. */
  predicate Accepted(s: Scheduler, call: Call, minimum: Sensor -> nat) {
    var (decision, t) := Decide(s, call);
    !decision.Reject? && (decision.ActAt? ==> Free(t.reserved, decision.time, call.targets, minimum))
  }

  /** The time a request asks its cameras to act at: the camera clock and the lead, or a time between 20 ms and
      five seconds ahead that is converted as before, or by the median of the clock offsets. */
  predicate ActionTime(memo: map<nat, nat>, call: Call, time: nat) {
    match call.requested
    case None => time == call.cameraTime + call.lead
    case Some(requested) =>
      && call.clock + MARGIN <= requested <= call.clock + HORIZON
      && call.cameraTime + MARGIN <= time
      && if requested in memo then time == memo[requested]
         else time > 0 && MedianClockOffset(call.offsets) == Some(time - requested)
  }

  /** Every other action booked for one of the cameras is at least that camera's minimum away. */
  predicate KeptApart(reserved: map<nat, set<Sensor>>, time: nat, targets: seq<Sensor>, minimum: Sensor -> nat) {
    forall x, t :: x in targets && t in reserved && t != time && x in reserved[t] ==>
      t + minimum(x) <= time || time + minimum(x) <= t
  }

  lemma KeptApartIsFree(reserved: map<nat, set<Sensor>>, time: nat, targets: seq<Sensor>, minimum: Sensor -> nat)
    ensures KeptApart(reserved, time, targets, minimum) <==> Free(reserved, time, targets, minimum)
  {
    forall x, t | x in targets && t in reserved && t != time && x in reserved[t]
      ensures !Conflict(time, t, minimum(x)) <==> t + minimum(x) <= time || time + minimum(x) <= t
    {
    }
  }

  lemma ShiftedIs(requested: nat, offset: Option<int>, time: nat)
    ensures Shifted(requested, offset) == Some(time) <==> time > 0 && offset == Some(time - requested)
  {
  }

  lemma DecideKeepsSchedule(s: Scheduler, call: Call)
    ensures Decide(s, call).1.reserved == s.reserved && Decide(s, call).1.sent == s.sent
  {
    DecideConverts(s, call);
  }

  lemma DecidesByConversion(s: Scheduler, call: Call, time: nat)
    requires call.requested.Some?
    ensures Decide(s, call).0 == ActAt(time) <==>
      && !call.locking && call.targets != []
      && call.clock + MARGIN <= call.requested.value <= call.clock + HORIZON && call.cameraTime + MARGIN <= time
      && Convert(s.memo, call.requested.value, call.offsets) == Some(time)
  {
  }

  lemma DecidesByActionTime(s: Scheduler, call: Call, time: nat)
    ensures Decide(s, call).0 == ActAt(time) <==> !call.locking && call.targets != [] && ActionTime(s.memo, call, time)
  {
    if call.requested.Some? {
      DecidesByConversion(s, call, time);
      ShiftedIs(call.requested.value, MedianClockOffset(call.offsets), time);
    }
  }

  /** A camera is told to act at a time exactly when the request has all its cameras locked, asks for that time,
      no action booked for any of its cameras is too close, and this camera is a target that can be reached and
      has not been told yet. */
  lemma CaptureTellsExactly(s: Scheduler, call: Call, minimum: Sensor -> nat, c: Command)
    ensures c in Capture(s, call, minimum).sent <==>
      || c in s.sent
      || (&& !call.locking && ActionTime(s.memo, call, c.time) && KeptApart(s.reserved, c.time, call.targets, minimum)
          && c.sensor in call.targets && c.sensor !in call.failing && c.sensor !in At(s.reserved, c.time))
  {
    DecidesByActionTime(s, call, c.time);
    KeptApartIsFree(s.reserved, c.time, call.targets, minimum);
    var (decision, t) := Decide(s, call);
    DecideKeepsSchedule(s, call);
    if decision.ActAt? {
      DecidesByActionTime(s, call, decision.time);
      SendsTellExactly(At(s.reserved, decision.time), decision.time, call.targets, call.failing, c);
    }
  }

  lemma SendsTellExactly(already: set<Sensor>, time: nat, targets: seq<Sensor>, failing: set<Sensor>, c: Command)
    ensures c in Sends(already, time, targets, failing) <==>
      c.time == time && c.sensor in targets && c.sensor !in failing && c.sensor !in already
  {
    SendsAreNew(already, time, targets, failing);
    SendsReach(already, time, targets, failing, c.sensor);
  }

  lemma ToldExactly(already: set<Sensor>, time: nat, targets: seq<Sensor>, failing: set<Sensor>)
    ensures forall x :: x in already + Told(Sends(already, time, targets, failing)) <==>
      x in already || (x in targets && x !in failing)
  {
    var sends := Sends(already, time, targets, failing);
    SendsAreNew(already, time, targets, failing);
    forall x
      ensures x in Told(sends) <==> Command(time, x) in sends
      ensures Command(time, x) in sends <==> x in targets && x !in failing && x !in already
    {
      SendsTellExactly(already, time, targets, failing, Command(time, x));
    }
  }

  /** A request is accepted exactly when no camera is still locking, its time lies in the accepted range, and,
      if it has targets, there is an action time that keeps apart from their other actions. */
  lemma AcceptanceIsExact(s: Scheduler, call: Call, minimum: Sensor -> nat)
    ensures Accepted(s, call, minimum) <==>
      && !call.locking
      && (call.requested.Some? ==> call.clock + MARGIN <= call.requested.value <= call.clock + HORIZON)
      && (call.targets == [] ||
          exists time: nat :: ActionTime(s.memo, call, time) && KeptApart(s.reserved, time, call.targets, minimum))
  {
    var (decision, t) := Decide(s, call);
    DecideKeepsSchedule(s, call);
    if decision.ActAt? {
      DecidesByActionTime(s, call, decision.time);
      KeptApartIsFree(s.reserved, decision.time, call.targets, minimum);
    }
    forall time: nat | ActionTime(s.memo, call, time) && !call.locking && call.targets != []
      ensures decision == ActAt(time)
    {
      DecidesByActionTime(s, call, time);
    }
  }

  /** What is booked has been sent. */
  predicate BookedWasSent(s: Scheduler) {
    forall t, x :: t in s.reserved && x in s.reserved[t] ==> Command(t, x) in s.sent
  }

  lemma CaptureBooksWhatItSends(s: Scheduler, call: Call, minimum: Sensor -> nat)
    requires BookedWasSent(s)
    ensures BookedWasSent(Capture(s, call, minimum))
  {
    var (decision, t) := Decide(s, call);
    DecideKeepsSchedule(s, call);
    if decision.ActAt? {
      DecidesByActionTime(s, call, decision.time);
      var sends := Sends(At(s.reserved, decision.time), decision.time, call.targets, call.failing);
      SendsAreNew(At(s.reserved, decision.time), decision.time, call.targets, call.failing);
      forall x | x in Told(sends)
        ensures Command(decision.time, x) in sends
      {
        var c :| c in sends && c.sensor == x;
      }
    }
  }

  lemma {:induction false} RunBooksWhatItSends(s: Scheduler, calls: seq<Call>, minimum: Sensor -> nat)
    requires BookedWasSent(s)
    ensures BookedWasSent(Run(s, calls, minimum))
    decreases calls
  {
    if calls != [] {
      CaptureBooksWhatItSends(s, calls[0], minimum);
      RunBooksWhatItSends(Capture(s, calls[0], minimum), calls[1..], minimum);
    }
  }

  /** After every run: an accepted capture has told each of its cameras that can be reached, now or before, and
      none that cannot be reached; a refused one has told nobody. */
  lemma AcceptedCaptureReachesAll(calls: seq<Call>, call: Call, minimum: Sensor -> nat, x: Sensor)
    requires x in call.targets
    ensures var s := Run(Empty, calls, minimum); var t := Capture(s, call, minimum);
            && (Accepted(s, call, minimum) ==>
                  exists time: nat ::
                    && ActionTime(s.memo, call, time)
                    && (x !in call.failing ==> Command(time, x) in t.sent)
                    && (x in call.failing ==> (Command(time, x) in t.sent <==> Command(time, x) in s.sent)))
            && (!Accepted(s, call, minimum) ==> t.sent == s.sent)
  {
    var s := Run(Empty, calls, minimum);
    RunBooksWhatItSends(Empty, calls, minimum);
    AcceptanceIsExact(s, call, minimum);
    if Accepted(s, call, minimum) {
      var time: nat :| ActionTime(s.memo, call, time) && KeptApart(s.reserved, time, call.targets, minimum);
      CaptureTellsExactly(s, call, minimum, Command(time, x));
    }
  }

  // ---------- metering in between ----------

  /** Background metering sends scheduled actions to the same cameras without consulting the schedule: a tick
      uses the camera clock plus the lead. It is only kept away from captures by time, since an accepted
      capture blocks ticks until its frame must have arrived. The blocking deadline is measured on the camera
      clock. */
  datatype Station = Station(scheduler: Scheduler, metered: seq<Command>, blockedUntil: nat)

  datatype Pace = Pace(
    lead: nat,          // configured lead of captures and metering
    timeout: nat,       // image timeout
    ahead: nat,         // how far ahead of the camera clock captures are dispatched at least; without a
                        // requested time that is no more than the lead
    skew: nat)          // how far an action time may exceed what the system clock predicts

  datatype Happening = Request(call: Call) | Tick(cameraTime: nat, sensors: seq<Sensor>)

  const Quiet: Station := Station(Empty, [], 0)

  /** When the frame is expected, by the system clock. */
  function Due(call: Call, lead: nat): int {
    call.cameraTime + if call.requested.Some? then call.requested.value - call.clock else lead
  }

  function BlockedUntil(blockedUntil: nat, call: Call, p: Pace): nat {
    var until := Due(call, p.lead) + p.timeout;
    if until > blockedUntil then until else blockedUntil
  }

  function Metered(time: nat, sensors: seq<Sensor>): seq<Command> {
    seq(|sensors|, i requires 0 <= i < |sensors| => Command(time, sensors[i]))
  }

  function AfterRequest(s: Station, call: Call, p: Pace, minimum: Sensor -> nat): Station {
    Station(Capture(s.scheduler, call, minimum), s.metered,
            if Accepted(s.scheduler, call, minimum) then BlockedUntil(s.blockedUntil, call, p) else s.blockedUntil)
  }

  function AfterTick(s: Station, cameraTime: nat, sensors: seq<Sensor>, p: Pace): Station {
    if cameraTime < s.blockedUntil then s
    else s.(metered := s.metered + Metered(cameraTime + p.lead, sensors))
  }

  function After(s: Station, h: Happening, p: Pace, minimum: Sensor -> nat): Station {
    match h
    case Request(call) => AfterRequest(s, call, p, minimum)
    case Tick(cameraTime, sensors) => AfterTick(s, cameraTime, sensors, p)
  }

  function RunAll(s: Station, happenings: seq<Happening>, p: Pace, minimum: Sensor -> nat): Station
    decreases happenings
  {
    if happenings == [] then s else RunAll(After(s, happenings[0], p, minimum), happenings[1..], p, minimum)
  }

  function Requests(happenings: seq<Happening>): seq<Call> {
    if happenings == [] then []
    else (if happenings[0].Request? then [happenings[0].call] else []) + Requests(happenings[1..])
  }

  lemma MeteredHas(time: nat, sensors: seq<Sensor>, c: Command)
    ensures c in Metered(time, sensors) <==> c.time == time && c.sensor in sensors
  {
    if c.time == time && c.sensor in sensors {
      var i :| 0 <= i < |sensors| && sensors[i] == c.sensor;
      assert Metered(time, sensors)[i] == c;
    }
  }

  /** A tick meters all its cameras at the camera clock and the lead, or none while it is blocked. */
  lemma TickMetersExactly(s: Station, cameraTime: nat, sensors: seq<Sensor>, p: Pace, c: Command)
    ensures c in AfterTick(s, cameraTime, sensors, p).metered <==>
      c in s.metered || (s.blockedUntil <= cameraTime && c.time == cameraTime + p.lead && c.sensor in sensors)
  {
    MeteredHas(cameraTime + p.lead, sensors, c);
  }

  /** Ticks are blocked as long as any accepted capture waits for its frame: until its action time, as the system
      clock predicts it, has passed by the image timeout. */
  lemma CaptureBlocksExactly(s: Station, call: Call, p: Pace, minimum: Sensor -> nat, cameraTime: nat)
    ensures var ahead := if call.requested.Some? then call.requested.value - call.clock else p.lead;
            AfterRequest(s, call, p, minimum).blockedUntil <= cameraTime <==>
              && s.blockedUntil <= cameraTime
              && (Accepted(s.scheduler, call, minimum) ==> call.cameraTime + ahead + p.timeout <= cameraTime)
  {
    BlocksUntilBoth(s.blockedUntil, call, p, cameraTime);
  }

  lemma BlocksUntilBoth(blockedUntil: nat, call: Call, p: Pace, cameraTime: nat)
    ensures BlockedUntil(blockedUntil, call, p) <= cameraTime <==>
      blockedUntil <= cameraTime && Due(call, p.lead) + p.timeout <= cameraTime
  {
  }

  /** What is known of captures among themselves carries over to runs with metering in between. */
  lemma {:induction false} MeteringLeavesCaptures(
    s: Station, happenings: seq<Happening>, p: Pace, minimum: Sensor -> nat)
    ensures RunAll(s, happenings, p, minimum).scheduler == Run(s.scheduler, Requests(happenings), minimum)
    decreases happenings
  {
    if happenings != [] {
      var rest := Requests(happenings[1..]);
      MeteringLeavesCaptures(After(s, happenings[0], p, minimum), happenings[1..], p, minimum);
      match happenings[0]
      case Request(call) => assert ([call] + rest)[1..] == rest;
      case Tick(_, _) => assert [] + rest == rest;
    }
  }

  function ClockOf(h: Happening): nat {
    if h.Request? then h.call.cameraTime else h.cameraTime
  }

  /** An accepted action is far enough ahead of the camera clock, and not too far off the system clock. */
  predicate Timely(s: Scheduler, call: Call, p: Pace, minimum: Sensor -> nat) {
    && (call.requested.None? ==> call.lead == p.lead)
    && (Accepted(s, call, minimum) && Decide(s, call).0.ActAt? ==>
          call.cameraTime + p.ahead <= Decide(s, call).0.time <= Due(call, p.lead) + p.skew)
  }

  /** The camera clock does not go back, and captures are timely. */
  predicate Paced(s: Station, now: nat, happenings: seq<Happening>, p: Pace, minimum: Sensor -> nat)
    decreases happenings
  {
    happenings != [] ==>
      && now <= ClockOf(happenings[0])
      && (happenings[0].Request? ==> Timely(s.scheduler, happenings[0].call, p, minimum))
      && Paced(After(s, happenings[0], p, minimum), ClockOf(happenings[0]), happenings[1..], p, minimum)
  }

  /** No capture command lies within a camera's minimum of a metering command. */
  predicate Clear(sent: seq<Command>, metered: seq<Command>, minimum: Sensor -> nat) {
    forall c, m :: c in sent && m in metered && c.sensor == m.sensor ==> !Conflict(c.time, m.time, minimum(c.sensor))
  }

  /** Metering so far lies at most a lead ahead; captures so far are over when ticks are let through again. */
  predicate Apart(s: Station, now: nat, p: Pace, minimum: Sensor -> nat) {
    && Clear(s.scheduler.sent, s.metered, minimum)
    && (forall m :: m in s.metered ==> m.time <= now + p.lead)
    && (forall c :: c in s.scheduler.sent ==> c.time + p.timeout <= s.blockedUntil + p.skew)
  }

  /** What one accepted capture adds to the commands. */
  lemma CaptureSends(s: Scheduler, call: Call, minimum: Sensor -> nat) returns (sends: seq<Command>)
    ensures Capture(s, call, minimum).sent == s.sent + sends
    ensures forall c :: c in sends ==>
      Accepted(s, call, minimum) && Decide(s, call).0.ActAt? && c.time == Decide(s, call).0.time
  {
    var (decision, t) := Decide(s, call);
    if decision.ActAt? && call.targets != [] && Free(t.reserved, decision.time, call.targets, minimum) {
      sends := Sends(At(t.reserved, decision.time), decision.time, call.targets, call.failing);
      SendsAreNew(At(t.reserved, decision.time), decision.time, call.targets, call.failing);
    } else {
      sends := [];
    }
  }

  lemma RequestStaysApart(s: Station, now: nat, call: Call, p: Pace, minimum: Sensor -> nat)
    requires Apart(s, now, p, minimum) && now <= call.cameraTime && Timely(s.scheduler, call, p, minimum)
    requires forall x :: p.lead + minimum(x) <= p.ahead
    ensures Apart(AfterRequest(s, call, p, minimum), call.cameraTime, p, minimum)
  {
    var sends := CaptureSends(s.scheduler, call, minimum);
    var t := AfterRequest(s, call, p, minimum);
    forall c | c in t.scheduler.sent
      ensures c.time + p.timeout <= t.blockedUntil + p.skew
      ensures forall m :: m in t.metered && c.sensor == m.sensor ==> !Conflict(c.time, m.time, minimum(c.sensor))
    {
      assert c in s.scheduler.sent || c in sends;
      assert p.lead + minimum(c.sensor) <= p.ahead;
    }
  }

  lemma TickStaysApart(s: Station, now: nat, cameraTime: nat, sensors: seq<Sensor>, p: Pace, minimum: Sensor -> nat)
    requires Apart(s, now, p, minimum) && now <= cameraTime
    requires forall x :: p.skew + minimum(x) <= p.timeout + p.lead
    ensures Apart(AfterTick(s, cameraTime, sensors, p), cameraTime, p, minimum)
  {
    var t := AfterTick(s, cameraTime, sensors, p);
    forall c, m | c in t.scheduler.sent && m in t.metered && c.sensor == m.sensor
      ensures !Conflict(c.time, m.time, minimum(c.sensor))
    {
      assert m in s.metered || m in Metered(cameraTime + p.lead, sensors);
      assert p.skew + minimum(c.sensor) <= p.timeout + p.lead;
    }
  }

  lemma {:induction false} PacedStaysApart(s: Station, now: nat, happenings: seq<Happening>, p: Pace,
                                           minimum: Sensor -> nat)
    requires Apart(s, now, p, minimum) && Paced(s, now, happenings, p, minimum)
    requires forall x :: p.lead + minimum(x) <= p.ahead && p.skew + minimum(x) <= p.timeout + p.lead
    ensures Clear(RunAll(s, happenings, p, minimum).scheduler.sent, RunAll(s, happenings, p, minimum).metered, minimum)
    decreases happenings
  {
    if happenings != [] {
      match happenings[0] {
        case Request(call) => RequestStaysApart(s, now, call, p, minimum);
        case Tick(cameraTime, sensors) => TickStaysApart(s, now, cameraTime, sensors, p, minimum);
      }
      PacedStaysApart(After(s, happenings[0], p, minimum), ClockOf(happenings[0]), happenings[1..], p, minimum);
    }
  }

  ghost predicate PaceKeepsClear(p: Pace, minimum: Sensor -> nat) {
    forall happenings :: Paced(Quiet, 0, happenings, p, minimum) ==>
      var s := RunAll(Quiet, happenings, p, minimum); Clear(s.scheduler.sent, s.metered, minimum)
  }

  /** One request when the camera clock shows zero; the action time may be off the system clock. */
  function First(delay: nat, skew: nat, sensor: Sensor): Call {
    Call(Some(delay), 0, 0, [skew], false, [sensor], 0, 0, {})
  }

  lemma FirstCapture(delay: nat, skew: nat, sensor: Sensor, p: Pace, minimum: Sensor -> nat)
    requires MARGIN <= delay <= HORIZON && skew <= p.skew && p.ahead <= delay + skew
    ensures var call := First(delay, skew, sensor);
            && Accepted(Empty, call, minimum) && Timely(Empty, call, p, minimum) && Due(call, p.lead) == delay
            && Capture(Empty, call, minimum).sent == [Command(delay + skew, sensor)]
  {
    OneOffset(skew);
    assert Decide(Empty, First(delay, skew, sensor)).0 == ActAt(delay + skew);
    assert Sends({}, delay + skew, [sensor], {}) == [Command(delay + skew, sensor)];
  }

  lemma TwoHappenings(a: Happening, b: Happening, s1: Station, s2: Station, p: Pace, minimum: Sensor -> nat)
    returns (happenings: seq<Happening>)
    requires s1 == After(Quiet, a, p, minimum) && s2 == After(s1, b, p, minimum) && ClockOf(a) <= ClockOf(b)
    requires a.Request? ==> Timely(Empty, a.call, p, minimum)
    requires b.Request? ==> Timely(s1.scheduler, b.call, p, minimum)
    ensures Paced(Quiet, 0, happenings, p, minimum) && RunAll(Quiet, happenings, p, minimum) == s2
  {
    happenings := [a, b];
    assert happenings[1..] == [b] && [b][1..] == [];
    assert RunAll(s1, [b], p, minimum) == RunAll(s2, [], p, minimum);
    assert Paced(s2, ClockOf(b), [], p, minimum);
    assert Paced(s1, ClockOf(a), [b], p, minimum);
  }

  lemma Crowds(sent: seq<Command>, metered: seq<Command>, time: nat, other: nat, sensor: Sensor, minimum: Sensor -> nat)
    requires sent == [Command(time, sensor)] && metered == [Command(other, sensor)]
    requires Conflict(time, other, minimum(sensor))
    ensures !Clear(sent, metered, minimum)
  {
    assert Command(time, sensor) in sent && Command(other, sensor) in metered;
  }

  /** A tick, then a capture too little ahead of the camera clock. */
  lemma LateCaptureCrowds(p: Pace, sensor: Sensor, minimum: Sensor -> nat) returns (happenings: seq<Happening>)
    requires minimum(sensor) > 1 && MARGIN <= p.lead && p.lead + minimum(sensor) <= HORIZON
    requires p.ahead < p.lead + minimum(sensor)
    ensures Paced(Quiet, 0, happenings, p, minimum)
    ensures var s := RunAll(Quiet, happenings, p, minimum); !Clear(s.scheduler.sent, s.metered, minimum)
  {
    var delay := if p.ahead <= p.lead then p.lead + 1 else p.ahead;
    var call := First(delay, 0, sensor);
    FirstCapture(delay, 0, sensor, p, minimum);
    var s1 := AfterTick(Quiet, 0, [sensor], p);
    var s2 := AfterRequest(s1, call, p, minimum);
    assert s1 == Station(Empty, [Command(p.lead, sensor)], 0);
    happenings := TwoHappenings(Tick(0, [sensor]), Request(call), s1, s2, p, minimum);
    Crowds(s2.scheduler.sent, s2.metered, delay, p.lead, sensor, minimum);
  }

  /** A capture whose action time is far off the system clock, then the first tick that is let through or a
      later one. */
  lemma EarlyTickCrowds(p: Pace, sensor: Sensor, minimum: Sensor -> nat) returns (happenings: seq<Happening>)
    requires minimum(sensor) > 1 && p.ahead <= HORIZON && p.timeout + p.lead < p.skew + minimum(sensor)
    ensures Paced(Quiet, 0, happenings, p, minimum)
    ensures var s := RunAll(Quiet, happenings, p, minimum); !Clear(s.scheduler.sent, s.metered, minimum)
  {
    var time := HORIZON + p.skew;
    var call := First(HORIZON, p.skew, sensor);
    FirstCapture(HORIZON, p.skew, sensor, p, minimum);
    var s1 := AfterRequest(Quiet, call, p, minimum);
    assert s1.blockedUntil == HORIZON + p.timeout;
    var earliest := HORIZON + p.timeout + p.lead;
    var metering := if earliest > time then earliest else time + 1;
    var s2 := AfterTick(s1, metering - p.lead, [sensor], p);
    assert s2.metered == [Command(metering, sensor)];
    happenings := TwoHappenings(Request(call), Tick(metering - p.lead, [sensor]), s1, s2, p, minimum);
    Crowds(s2.scheduler.sent, s2.metered, time, metering, sensor, minimum);
  }

  /** When captures keep clear of metering: on every paced run exactly when captures are dispatched at least
      the lead and the largest minimum ahead of the camera clock, and the image timeout with the lead covers
      the clock skew and that minimum. */
  lemma MeteringClearanceIsExact(p: Pace, sensor: Sensor, minimum: Sensor -> nat)
    requires forall x :: 1 < minimum(x) <= minimum(sensor)
    requires MARGIN <= p.lead && p.lead + minimum(sensor) <= HORIZON && p.ahead <= HORIZON
    ensures PaceKeepsClear(p, minimum) <==>
      p.lead + minimum(sensor) <= p.ahead && p.skew + minimum(sensor) <= p.timeout + p.lead
  {
    if p.ahead < p.lead + minimum(sensor) {
      var happenings := LateCaptureCrowds(p, sensor, minimum);
    } else if p.timeout + p.lead < p.skew + minimum(sensor) {
      var happenings := EarlyTickCrowds(p, sensor, minimum);
    } else {
      forall happenings | Paced(Quiet, 0, happenings, p, minimum)
        ensures var s := RunAll(Quiet, happenings, p, minimum); Clear(s.scheduler.sent, s.metered, minimum)
      {
        PacedStaysApart(Quiet, 0, happenings, p, minimum);
      }
    }
  }
}
