/** The provider's two scheduling maps as fields that the capture callback updates in place. Every
    method is tied to the specification in ActionScheduling, where the whole-run results are proved. */
module ActionSchedulers {
  import opened Optional
  import opened FrameTimestamp
  import opened ActionScheduling

  class ActionScheduler {
    const minimum: Sensor -> nat
    const pace: Pace
    var blockedUntil: nat
    var memo: map<nat, nat>
    var reserved: map<nat, set<Sensor>>
    ghost var converted: seq<Conversion>
    ghost var actions: set<nat>
    ghost var sent: seq<Command>
    ghost var metered: seq<Command>

    /** The scheduler together with the metering it has to share the cameras with. */
    ghost function StationView(): Station
      reads this
    {
      Station(View(), metered, blockedUntil)
    }

    ghost function View(): Scheduler
      reads this
    {
      Scheduler(memo, reserved, converted, actions, sent)
    }

    constructor (minimum: Sensor -> nat, pace: Pace)
      ensures StationView() == Quiet && this.minimum == minimum && this.pace == pace
    {
      this.minimum, this.pace := minimum, pace;
      memo, reserved, converted, actions, sent := map[], map[], [], {}, [];
      metered, blockedUntil := [], 0;
    }

    /** Drops every remembered conversion that is more than a second behind the clock. */
    method ForgetOld(clock: int)
      modifies this`memo
      ensures memo == Remember(old(memo), clock)
    {
      var left := memo.Keys;
      while left != {}
        invariant left <= old(memo).Keys
        invariant memo == map k | k in old(memo) && (k in left || k >= clock - SECOND) :: old(memo)[k]
        decreases |left|
      {
        var k :| k in left;
        left := left - {k};
        if k < clock - SECOND {
          memo := memo - {k};
        }
      }
    }

    method CommonPtpActionTime(requested: nat, call: Call) returns (time: Option<nat>)
      modifies this`memo, this`converted
      ensures time == Convert(old(memo), requested, call.offsets)
      ensures View() == Converted(old(View()), requested, call)
    {
      if requested in memo {
        time := Some(memo[requested]);
      } else {
        var offset := MedianClockOffset(call.offsets);
        if offset.None? || requested + offset.value <= 0 {
          return None;
        }
        time := Some(requested + offset.value);
        memo := memo[requested := time.value];
        ForgetOld(call.evictionClock);
      }
      converted := converted + [Conversion(requested, time.value)];
    }

    /** Looks for an action of one of the targets that is too close. */
    method IsFree(time: nat, targets: seq<Sensor>) returns (free: bool)
      ensures free <==> Free(reserved, time, targets, minimum)
    {
      for i := 0 to |targets|
        invariant Free(reserved, time, targets[..i], minimum)
      {
        var sensor := targets[i];
        var left := reserved.Keys;
        while left != {}
          invariant left <= reserved.Keys
          invariant forall t :: t in reserved && t !in left && t != time && sensor in reserved[t] ==>
                      !Conflict(time, t, minimum(sensor))
          decreases |left|
        {
          var t :| t in left;
          left := left - {t};
          if t != time && sensor in reserved[t] && Conflict(time, t, minimum(sensor)) {
            assert sensor in targets;
            return false;
          }
        }
        assert targets[..i + 1] == targets[..i] + [sensor];
      }
      assert targets[..|targets|] == targets;
      return true;
    }

    /** Drops every reservation that is more than a second behind the new action. */
    method EvictBefore(time: nat)
      modifies this`reserved
      ensures reserved == Retain(old(reserved), time)
    {
      var left := reserved.Keys;
      while left != {}
        invariant left <= old(reserved).Keys
        invariant reserved == map t | t in old(reserved) && (t in left || t + SECOND >= time) :: old(reserved)[t]
        decreases |left|
      {
        var t :| t in left;
        left := left - {t};
        if t + SECOND < time {
          reserved := reserved - {t};
        }
      }
    }

    /** Sends the action to every target that was not told before. */
    method SendAll(time: nat, targets: seq<Sensor>, failing: set<Sensor>)
      requires time in reserved
      modifies this`reserved, this`sent
      ensures var sends := Sends(old(reserved)[time], time, targets, failing);
              && sent == old(sent) + sends
              && reserved == old(reserved)[time := old(reserved)[time] + Told(sends)]
      ensures forall x :: x in reserved[time] <==> x in old(reserved)[time] || (x in targets && x !in failing)
    {
      ghost var done: seq<Command> := [];
      for i := 0 to |targets|
        invariant time in reserved && reserved[time] == old(reserved)[time] + Told(done)
        invariant reserved == old(reserved)[time := reserved[time]]
        invariant sent == old(sent) + done
        invariant Sends(old(reserved)[time], time, targets, failing)
               == done + Sends(reserved[time], time, targets[i..], failing)
      {
        var sensor := targets[i];
        assert targets[i..][0] == sensor && targets[i..][1..] == targets[i + 1..];
        if sensor !in reserved[time] && sensor !in failing {
          ghost var rest := Sends(reserved[time] + {sensor}, time, targets[i + 1..], failing);
          assert done + ([Command(time, sensor)] + rest) == (done + [Command(time, sensor)]) + rest;
          assert Told(done + [Command(time, sensor)]) == Told(done) + {sensor};
          reserved := reserved[time := reserved[time] + {sensor}];
          sent := sent + [Command(time, sensor)];
          done := done + [Command(time, sensor)];
        }
      }
      assert targets[|targets|..] == [] && done + [] == done;
      ToldExactly(old(reserved)[time], time, targets, failing);
    }

    /** Sends the action, then evicts. Even an action nobody could be told of enters the schedule. */
    method SendActions(time: nat, targets: seq<Sensor>, failing: set<Sensor>)
      modifies this`reserved, this`actions, this`sent
      ensures View() == Dispatch(old(View()), time, targets, failing)
    {
      reserved := reserved[time := At(reserved, time)];
      SendAll(time, targets, failing);
      ghost var sends := Sends(At(old(reserved), time), time, targets, failing);
      assert reserved == old(reserved)[time := At(old(reserved), time) + Told(sends)];
      EvictBefore(time);
      actions := actions + {time};
    }

    /** The scheduling phase of a capture; `accepted` says that it passed every check. */
    method ScheduleCapture(call: Call) returns (accepted: bool)
      modifies this`memo, this`converted, this`reserved, this`actions, this`sent
      ensures View() == Capture(old(View()), call, minimum)
      ensures accepted <==> Accepted(old(View()), call, minimum)
    {
      if call.locking {
        return false;
      }
      var time := call.cameraTime + call.lead;
      if call.requested.Some? {
        var requested := call.requested.value;
        if requested - call.clock < MARGIN || requested - call.clock > HORIZON {
          return false;
        }
        if call.targets == [] {
          return true;
        }
        var common := CommonPtpActionTime(requested, call);
        if common.None? || common.value < call.cameraTime + MARGIN {
          return false;
        }
        time := common.value;
      } else if call.targets == [] {
        return true;
      }
      accepted := IsFree(time, call.targets);
      if accepted {
        SendActions(time, call.targets, call.failing);
      }
    }

    /** An accepted capture keeps metering away until its frame must have arrived. */
    method CaptureCallback(call: Call)
      modifies this`memo, this`converted, this`reserved, this`actions, this`sent, this`blockedUntil
      ensures StationView() == AfterRequest(old(StationView()), call, pace, minimum)
    {
      var accepted := ScheduleCapture(call);
      if accepted {
        var until := Due(call, pace.lead) + pace.timeout;
        if until > blockedUntil {
          blockedUntil := until;
        }
      }
    }

    /** One round of background metering: every camera of the group is sent the same action. */
    method MeteringTick(cameraTime: nat, sensors: seq<Sensor>)
      modifies this`metered
      ensures StationView() == AfterTick(old(StationView()), cameraTime, sensors, pace)
    {
      if cameraTime < blockedUntil {
        return;
      }
      for i := 0 to |sensors|
        invariant metered == old(metered) + Metered(cameraTime + pace.lead, sensors[..i])
      {
        metered := metered + [Command(cameraTime + pace.lead, sensors[i])];
      }
      assert sensors[..|sensors|] == sensors;
    }
  }
}
