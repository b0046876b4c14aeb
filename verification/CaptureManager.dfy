/** The manager's session table and modes, and the provider's fold over assignments, as they are updated
    in place. */
module CaptureManagers {

  import opened CaptureLeases
  import opened CaptureAssignments
  import opened Optional
  import opened Sequences

  class CaptureManager {
    const config: Config
    var cameras: map<SensorId, Camera>
    var groups: map<GroupId, seq<SensorId>>
    var groupModes: map<GroupId, Mode>
    var groupIntervals: map<GroupId, nat>
    var sensorModes: map<SensorId, Mode>
    var sessions: map<SessionId, Session>

    function View(): Manager
      reads this
    {
      Manager(config, Inventory(cameras, groups), Modes(groupModes, groupIntervals, sensorModes), sessions)
    }

    constructor (config: Config, inventory: Inventory)
      ensures View() == Manager(config, inventory, Modes(map[], map[], map[]), map[])
      ensures Registered(inventory) ==> Inv(View())
    {
      this.config := config;
      cameras, groups := inventory.cameras, inventory.groups;
      groupModes, groupIntervals, sensorModes, sessions := map[], map[], map[], map[];
    }

    /** Resolves what a request names, or refuses it. */
    method SessionTargets(request: Request) returns (sensorIds: Option<set<SensorId>>)
      ensures sensorIds.Some? <==> ValidTargets(View().inventory, request)
      ensures sensorIds.Some? ==> sensorIds.value == TargetSensors(View().inventory, request)
    {
      if request.kind.UnknownTarget? || request.targets == [] || !Distinct(request.targets) {
        return None;
      }
      var found: set<SensorId> := {};
      for i := 0 to |request.targets|
        invariant request.kind.GroupTarget? ==>
                    && (forall k :: 0 <= k < i ==> request.targets[k] in groups)
                    && found == set k, s | 0 <= k < i && s in groups[request.targets[k]] :: s
        invariant request.kind.SensorTarget? ==>
                    && (forall k :: 0 <= k < i ==> request.targets[k] in cameras)
                    && found == set k | 0 <= k < i :: request.targets[k]
      {
        var target := request.targets[i];
        if request.kind.GroupTarget? {
          if target !in groups {
            assert target in request.targets;
            return None;
          }
          found := found + set s | s in groups[target];
        } else {
          if target !in cameras {
            assert target in request.targets;
            return None;
          }
          found := found + {target};
        }
      }
      return Some(found);
    }

    /** Looks for a lease that stands in the way. */
    method Busy(wanted: set<SensorId>, exclusive: bool) returns (busy: bool)
      ensures busy <==> !Available(sessions, wanted, exclusive)
      ensures busy <==> exists id, s :: id in sessions && s in sessions[id].sensorIds && s in wanted &&
                          (exclusive || sessions[id].request.exclusive)
    {
      var left := sessions.Keys;
      while left != {}
        invariant left <= sessions.Keys
        invariant forall id :: id in sessions && id !in left ==> !Conflicts(sessions[id], wanted, exclusive)
        decreases left
      {
        var id :| id in left;
        if Conflicts(sessions[id], wanted, exclusive) {
          var s :| s in sessions[id].sensorIds * wanted;
          return true;
        }
        left := left - {id};
      }
      forall id, s | id in sessions && s in sessions[id].sensorIds && s in wanted
        ensures !(exclusive || sessions[id].request.exclusive)
      {
        assert s in sessions[id].sensorIds * wanted && !Conflicts(sessions[id], wanted, exclusive);
      }
      return false;
    }

    method CreateCaptureSession(id: SessionId, request: Request, now: real) returns (created: Option<Session>)
      modifies this`sessions
      ensures View() == AfterAcquire(old(View()), id, request, now)
      ensures created.Some? <==> WellAsked(old(View()).inventory, request) && Unrivalled(old(View()), request)
      ensures created.Some? ==> id in sessions && sessions[id] == created.value
    {
      if !ValidInterval(request.interval) {
        return None;
      }
      if ValidTargets(View().inventory, request) {
        UnrivalledIsAvailable(View(), request);
      }
      var sensorIds := SessionTargets(request);
      if sensorIds.None? {
        return None;
      }
      var busy := Busy(sensorIds.value, request.exclusive);
      if busy {
        return None;
      }
      var session := Session(request, if request.kind.GroupTarget? then request.targets else [], sensorIds.value,
                             now + config.ttl);
      sessions := sessions[id := session];
      return Some(session);
    }

    method RenewCaptureSession(id: SessionId, now: real) returns (known: bool)
      modifies this`sessions
      ensures View() == AfterRenew(old(View()), id, now)
      ensures known <==> id in old(sessions)
    {
      if id !in sessions {
        return false;
      }
      sessions := sessions[id := sessions[id].(expires := now + config.ttl)];
      return true;
    }

    method DropCaptureSession(id: SessionId) returns (removed: bool)
      modifies this`sessions
      ensures sessions == old(sessions) - {id}
      ensures removed <==> id in old(sessions)
    {
      removed := id in sessions;
      sessions := sessions - {id};
    }

    /** Collects the overdue leases first, then drops them one by one. */
    method ExpireCaptureSessions(now: real) returns (expired: set<SessionId>)
      modifies this`sessions
      ensures expired == Expired(old(sessions), now)
      ensures sessions == old(sessions) - expired
    {
      expired := {};
      var left := sessions.Keys;
      while left != {}
        invariant left <= sessions.Keys && sessions == old(sessions)
        invariant expired == Expired(sessions, now) - left
        decreases left
      {
        var id :| id in left;
        if sessions[id].expires <= now {
          expired := expired + {id};
        }
        left := left - {id};
      }
      var dropping := expired;
      while dropping != {}
        invariant dropping <= expired
        invariant sessions == old(sessions) - (expired - dropping)
        decreases dropping
      {
        var id :| id in dropping;
        var _ := DropCaptureSession(id);
        assert expired - (dropping - {id}) == (expired - dropping) + {id};
        dropping := dropping - {id};
      }
      assert expired - {} == expired;
    }

    method UpsertGroup(group: GroupId, members: seq<SensorId>, saved: bool) returns (accepted: bool)
      modifies this`groups, this`groupModes, this`groupIntervals
      ensures View() == AfterUpsert(old(View()), group, members, saved)
      ensures if accepted then group in groups && groups[group] == members else View() == old(View())
    {
      var affected := Affected(View().inventory, group, members);
      if Owned(sessions, affected) || !saved || !ValidMembers(View().inventory, members) {
        return false;
      }
      groups := groups[group := members];
      if group !in groupModes {
        groupModes := groupModes[group := config.defaultGroupMode];
      }
      if group !in groupIntervals {
        groupIntervals := groupIntervals[group := 0];
      }
      return true;
    }

    method DeleteGroup(group: GroupId, saved: bool) returns (accepted: bool)
      modifies this`groups, this`groupModes, this`groupIntervals
      ensures View() == AfterDelete(old(View()), group, saved)
      ensures if accepted then group in old(groups) && group !in groups else View() == old(View())
    {
      if group !in groups || Owned(sessions, Affected(View().inventory, group, [])) || !saved {
        return false;
      }
      groups := groups - {group};
      groupModes := groupModes - {group};
      groupIntervals := groupIntervals - {group};
      return true;
    }

    method SetGroupMode(group: GroupId, mode: Mode) returns (accepted: bool)
      modifies this`groupModes, this`groupIntervals
      ensures View() == AfterSetGroupMode(old(View()), group, mode)
      ensures if accepted then group in groupModes && groupModes[group] == mode else View() == old(View())
    {
      if group !in groups || Owned(sessions, Affected(View().inventory, group, [])) {
        return false;
      }
      groupModes := groupModes[group := mode];
      groupIntervals := groupIntervals[group := 0];
      return true;
    }

    method SetSensorMode(sensor: SensorId, mode: Mode) returns (accepted: bool)
      modifies this`sensorModes
      ensures View() == AfterSetSensorMode(old(View()), sensor, mode)
      ensures if accepted then sensor in sensorModes && sensorModes[sensor] == mode else View() == old(View())
    {
      if || sensor !in cameras || Owned(sessions, {sensor}) || GroupsOf(View().inventory, sensor) != {}
         || mode == Capture
      {
        return false;
      }
      sensorModes := sensorModes[sensor := mode];
      return true;
    }

    /** The mode service, for a group or for a camera of its own. */
    method SetMode(kind: TargetKind, target: nat, mode: Mode) returns (accepted: bool)
      modifies this`groupModes, this`groupIntervals, this`sensorModes
      ensures View() == match kind
                        case GroupTarget => AfterSetGroupMode(old(View()), target, mode)
                        case SensorTarget => AfterSetSensorMode(old(View()), target, mode)
                        case UnknownTarget => old(View())
      ensures !accepted ==> View() == old(View())
    {
      match kind
      case GroupTarget => accepted := SetGroupMode(target, mode);
      case SensorTarget => accepted := SetSensorMode(target, mode);
      case UnknownTarget => accepted := false;
    }

    method ForgetSensor(sensor: SensorId, removable: bool, saved: bool) returns (accepted: bool)
      modifies this`cameras, this`sensorModes
      ensures View() == AfterForget(old(View()), sensor, removable, saved)
      ensures if accepted then sensor in old(cameras) && sensor !in cameras else View() == old(View())
    {
      if || GroupsOf(View().inventory, sensor) != {} || Owned(sessions, {sensor}) || !removable
         || sensor !in cameras || !saved
      {
        return false;
      }
      cameras := cameras - {sensor};
      sensorModes := sensorModes - {sensor};
      return true;
    }

    /** The shortest positive interval any lease asks of a group. */
    method RequestedGroupInterval(g: GroupId) returns (interval: nat)
      ensures interval == RequestedInterval(View(), g)
    {
      ghost var seen: set<nat> := {};
      interval := 0;
      var left := sessions.Keys;
      while left != {}
        invariant left <= sessions.Keys
        invariant forall x :: x in seen <==>
                    exists id :: id in sessions && id !in left && NamesWith(id, g, x)
        invariant if seen == {} then interval == 0 else Minimum(interval, seen)
        decreases left
      {
        var id :| id in left;
        var session := sessions[id];
        if g in session.groupIds && session.request.interval > 0 {
          if interval == 0 || session.request.interval < interval {
            interval := session.request.interval;
          }
          assert NamesWith(id, g, session.request.interval);
          seen := seen + {session.request.interval};
        }
        left := left - {id};
      }
      assert seen == NamedIntervals(View(), g) by {
        assert forall x :: x in seen ==> x in NamedIntervals(View(), g);
        forall x | x in NamedIntervals(View(), g)
          ensures x in seen
        {
          var id :| id in sessions && Names(sessions, id, g) && sessions[id].request.interval == x && x > 0;
          assert NamesWith(id, g, x);
        }
      }
      LeastIsMinimum(seen);
      if interval == 0 && g in groupIntervals {
        interval := groupIntervals[g];
      }
    }

    predicate NamesWith(id: SessionId, g: GroupId, interval: nat)
      reads this
    {
      Names(sessions, id, g) && interval > 0 && sessions[id].request.interval == interval
    }

    /** The shortest interval the capturing groups of a camera ask for. */
    method AssignedInterval(ids: seq<GroupId>) returns (interval: nat)
      ensures interval == Least(CaptureIntervals(View(), ids))
    {
      interval := 0;
      ghost var seen: set<nat> := {};
      for i := 0 to |ids|
        invariant seen == CaptureIntervals(View(), ids[..i])
        invariant if seen == {} then interval == 0 else Minimum(interval, seen)
      {
        assert ids[..i + 1] == ids[..i] + [ids[i]];
        IntervalsGrow(View(), ids[..i], ids[i]);
        var requested := RequestedGroupInterval(ids[i]);
        if RequestedMode(View(), ids[i]) == Capture && requested > 0 {
          if interval == 0 || requested < interval {
            interval := requested;
          }
          seen := seen + {requested};
        }
      }
      assert ids[..|ids|] == ids;
      LeastIsMinimum(seen);
    }

    /** One camera's assignment. */
    method Assign(groupOrder: seq<GroupId>, s: SensorId) returns (a: Assignment)
      requires s in cameras
      ensures a == AssignmentFor(View(), groupOrder, s)
    {
      var members := MemberGroups(View().inventory, groupOrder, s);
      var mode := AssignedMode(View(), members, s);
      var advertised := if mode == Capture then Capturing(View(), members) else members;
      var interval := AssignedInterval(advertised);
      a := Assignment(s, cameras[s], advertised, if advertised != [] then Some(advertised[0]) else None, mode,
                      Leased(sessions, s), if mode == Capture then interval else 0);
    }

    static lemma IntervalsGrow(m: Manager, groups: seq<GroupId>, g: GroupId)
      ensures CaptureIntervals(m, groups + [g]) ==
              CaptureIntervals(m, groups) +
              if RequestedMode(m, g) == Capture && RequestedInterval(m, g) > 0 then {RequestedInterval(m, g)} else {}
    {
      var more := CaptureIntervals(m, groups + [g]);
      forall x | x in CaptureIntervals(m, groups)
        ensures x in more
      {
        var h :| h in groups && RequestedMode(m, h) == Capture && RequestedInterval(m, h) == x;
        assert h in groups + [g];
      }
      assert g in groups + [g];
    }

    method PublishAssignments(sensorOrder: seq<SensorId>, groupOrder: seq<GroupId>, provider: Provider)
      returns (items: seq<Assignment>)
      ensures items == Published(View(), sensorOrder, groupOrder, provider)
    {
      items := [];
      for i := 0 to |sensorOrder|
        invariant items == Published(View(), sensorOrder[..i], groupOrder, provider)
      {
        assert sensorOrder[..i + 1][..i] == sensorOrder[..i];
        var s := sensorOrder[i];
        if s in cameras && cameras[s].network in config.approved && cameras[s].provider == provider {
          var a := Assign(groupOrder, s);
          items := items + [a];
        }
      }
      assert sensorOrder[..|sensorOrder|] == sensorOrder;
    }
  }

  /** The provider's side: one camera joins every group its assignment lists. */
  method JoinGroups(before: map<GroupId, GroupStatus>, a: Assignment) returns (status: map<GroupId, GroupStatus>)
    ensures status == JoinedAll(before, a, ReportedGroups(a))
  {
    var ids := ReportedGroups(a);
    status := before;
    for k := 0 to |ids|
      invariant status == JoinedAll(before, a, ids[..k])
    {
      assert ids[..k + 1][..k] == ids[..k];
      var g := ids[k];
      if g !in status {
        status := status[g := GroupStatus(Uniform(a.mode), [a.sensor], a.interval)];
      } else {
        var group := status[g];
        if group.mode != Uniform(a.mode) {
          group := group.(mode := Mixed);
        }
        if group.interval < a.interval {
          group := group.(interval := a.interval);
        }
        status := status[g := group.(members := group.members + [a.sensor])];
      }
    }
    assert ids[..|ids|] == ids;
  }

  /** Folds the assignments the provider holds into one status for each group they list. */
  method PublishGroupStatus(items: seq<Assignment>) returns (status: map<GroupId, GroupStatus>)
    ensures status == Folded(items)
  {
    status := map[];
    for i := 0 to |items|
      invariant status == Folded(items[..i])
    {
      assert items[..i + 1][..i] == items[..i];
      status := JoinGroups(status, items[i]);
    }
    assert items[..|items|] == items;
  }
}
