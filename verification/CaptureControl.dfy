/** What the manager's services do, seen from what it then asks of groups and assigns to cameras. */
module CaptureControl {

  import opened CaptureLeases
  import opened CaptureAssignments
  import opened Optional

  // ---------- what is asked of a group, and assigned to a camera ----------

  predicate NamedByLease(m: Manager, g: GroupId) {
    exists id :: id in m.sessions && g in m.sessions[id].groupIds
  }

  /** A group is asked to capture when a lease names it; otherwise it is asked what was set for it, and for a
      group nothing was set for, the default. */
  lemma RequestedModeIsExact(m: Manager, g: GroupId)
    ensures NamedByLease(m, g) ==> RequestedMode(m, g) == Capture
    ensures !NamedByLease(m, g) && g in m.modes.groupModes ==> RequestedMode(m, g) == m.modes.groupModes[g]
    ensures !NamedByLease(m, g) && g !in m.modes.groupModes ==> RequestedMode(m, g) == m.config.defaultGroupMode
  {
    assert NamedByLease(m, g) <==> exists id :: id in m.sessions && Names(m.sessions, id, g);
  }

  predicate AsksEvery(m: Manager, id: SessionId, g: GroupId, interval: nat) {
    id in m.sessions && g in m.sessions[id].groupIds && m.sessions[id].request.interval == interval > 0
  }

  /** The interval asked of a group is the shortest that a lease of it asks for; without one, the group's own. */
  lemma RequestedIntervalIsExact(m: Manager, g: GroupId)
    ensures var x := RequestedInterval(m, g);
            if exists id, y :: AsksEvery(m, id, g, y) then
              (exists id :: AsksEvery(m, id, g, x)) && forall id, y :: AsksEvery(m, id, g, y) ==> x <= y
            else x == if g in m.modes.groupIntervals then m.modes.groupIntervals[g] else 0
  {
    var named := NamedIntervals(m, g);
    LeastIsMinimum(named);
    forall id, y | AsksEvery(m, id, g, y)
      ensures y in named
    {
      assert Names(m.sessions, id, g);
    }
    if named != {} {
      var x := RequestedInterval(m, g);
      var id :| id in m.sessions && Names(m.sessions, id, g) && m.sessions[id].request.interval == x && x > 0;
      assert AsksEvery(m, id, g, x);
    }
  }

  predicate MemberAsked(m: Manager, s: SensorId, g: GroupId, mode: Mode) {
    g in m.inventory.groups && s in m.inventory.groups[g] && RequestedMode(m, g) == mode
  }

  lemma AnyInIsAsked(m: Manager, groupOrder: seq<GroupId>, s: SensorId, mode: Mode)
    requires forall g :: g in groupOrder <==> g in m.inventory.groups
    ensures AnyIn(m, MemberGroups(m.inventory, groupOrder, s), mode) <==> exists g :: MemberAsked(m, s, g, mode)
  {
    var members := MemberGroups(m.inventory, groupOrder, s);
    if AnyIn(m, members, mode) {
      var g :| g in members && RequestedMode(m, g) == mode;
      assert MemberAsked(m, s, g, mode);
    }
    if g :| MemberAsked(m, s, g, mode) {
      assert g in members;
    }
  }

  predicate DirectlyLeased(m: Manager, s: SensorId) {
    exists id :: id in m.sessions && m.sessions[id].request.kind.SensorTarget? && s in m.sessions[id].sensorIds
  }

  /** A camera captures when a group of it is asked to, or a lease took it directly; else it previews when a
      group of it is asked to; else it is idle, unless it is in no group: then it does what was set for it. */
  lemma AssignedModeIsExact(m: Manager, groupOrder: seq<GroupId>, s: SensorId)
    requires s in m.inventory.cameras
    requires forall g :: g in groupOrder <==> g in m.inventory.groups
    ensures var mode := AssignmentFor(m, groupOrder, s).mode;
            var own := if s in m.modes.sensorModes then m.modes.sensorModes[s] else m.config.defaultSensorMode;
            mode == if DirectlyLeased(m, s) || exists g :: MemberAsked(m, s, g, Capture) then Capture
                    else if exists g :: MemberAsked(m, s, g, Preview) then Preview
                    else if exists g :: MemberAsked(m, s, g, Idle) then Idle else own
  {
    var members := MemberGroups(m.inventory, groupOrder, s);
    AnyInIsAsked(m, groupOrder, s, Capture);
    AnyInIsAsked(m, groupOrder, s, Preview);
    AnyInIsAsked(m, groupOrder, s, Idle);
    if members != [] {
      assert members[0] in members && AnyIn(m, members, RequestedMode(m, members[0]));
    }
    assert DirectlyLeased(m, s) <==> DirectlyOwned(m.sessions, s);
  }

  predicate MemberAskedEvery(m: Manager, s: SensorId, g: GroupId) {
    MemberAsked(m, s, g, Capture)
  }

  /** A capturing camera is asked for the shortest interval of its capturing groups that ask for one. */
  lemma AssignedIntervalIsExact(m: Manager, groupOrder: seq<GroupId>, s: SensorId)
    requires s in m.inventory.cameras
    requires forall g :: g in groupOrder <==> g in m.inventory.groups
    ensures var a := AssignmentFor(m, groupOrder, s);
            if exists g :: MemberAskedEvery(m, s, g) && RequestedInterval(m, g) > 0 then
              && (exists g :: MemberAskedEvery(m, s, g) && RequestedInterval(m, g) == a.interval)
              && (forall g :: MemberAskedEvery(m, s, g) && RequestedInterval(m, g) > 0 ==>
                    a.interval <= RequestedInterval(m, g))
            else a.interval == 0
  {
    var a := AssignmentFor(m, groupOrder, s);
    var members := MemberGroups(m.inventory, groupOrder, s);
    var capturing := Capturing(m, members);
    var intervals := CaptureIntervals(m, capturing);
    LeastIsMinimum(intervals);
    forall g
      ensures MemberAskedEvery(m, s, g) <==> g in capturing
    {
    }
    forall g | MemberAskedEvery(m, s, g) && RequestedInterval(m, g) > 0
      ensures RequestedInterval(m, g) in intervals && a.mode == Capture
    {
      assert AnyIn(m, members, Capture);
    }
    if a.mode == Capture && intervals != {} {
      var g :| g in capturing && RequestedMode(m, g) == Capture && RequestedInterval(m, g) == a.interval;
      assert MemberAskedEvery(m, s, g);
    }
  }

  /** A camera is published to a provider exactly when it is enrolled, on an approved network, and that provider
      drives it. */
  lemma PublishedIsExact(m: Manager, sensorOrder: seq<SensorId>, groupOrder: seq<GroupId>, provider: Provider, s: SensorId)
    requires forall x :: x in sensorOrder <==> x in m.inventory.cameras
    ensures (exists a :: a in Published(m, sensorOrder, groupOrder, provider) && a.sensor == s) <==>
      && s in m.inventory.cameras && m.inventory.cameras[s].network in m.config.approved
      && m.inventory.cameras[s].provider == provider
  {
    forall a | a in Published(m, sensorOrder, groupOrder, provider) && a.sensor == s
      ensures Assigned(m, provider, s)
    {
      PublishedAre(m, sensorOrder, groupOrder, provider, a);
    }
    if Assigned(m, provider, s) {
      PublishedAre(m, sensorOrder, groupOrder, provider, AssignmentFor(m, groupOrder, s));
    }
  }

  /** The provider's status of a group is found current exactly when the assignments it holds say so: some list the
      group, exactly its members do, all have the mode asked for unless that is idle, and when an interval is
      asked for, none is longer and not all are without one. */
  lemma CurrentIsExact(held: seq<Assignment>, g: GroupId, members: seq<SensorId>, mode: Mode, interval: nat)
    ensures IsCurrent(StatusOf(held, g), members, mode, interval) <==>
      && (exists a :: Lists(held, a, g))
      && (forall s :: s in members <==> exists a :: Lists(held, a, g) && a.sensor == s)
      && (mode != Idle ==> forall a :: Lists(held, a, g) ==> a.mode == mode)
      && (interval > 0 ==> (forall a :: Lists(held, a, g) ==> a.interval <= interval) &&
                           (exists a :: Lists(held, a, g) && a.interval > 0))
  {
    FoldSummarises(held, g);
    if g in Folded(held) {
      SameMembers(Folded(held)[g].members, members);
    }
  }

  // ---------- groups ----------

  /** Somebody holds one of these cameras. */
  predicate AnyHeld(m: Manager, members: seq<SensorId>) {
    exists s :: s in members && Leased(m.sessions, s)
  }

  predicate HeldIn(m: Manager, group: GroupId) {
    group in m.inventory.groups && AnyHeld(m, m.inventory.groups[group])
  }

  lemma OwnedIsHeld(m: Manager, group: GroupId, members: seq<SensorId>)
    ensures Owned(m.sessions, Affected(m.inventory, group, members)) <==> AnyHeld(m, members) || HeldIn(m, group)
  {
    var affected := Affected(m.inventory, group, members);
    forall id, s | id in m.sessions && s in m.sessions[id].sensorIds && s in affected
      ensures s in m.sessions[id].sensorIds * affected
    {
    }
    if id :| id in m.sessions && m.sessions[id].sensorIds * affected != {} {
      var s :| s in m.sessions[id].sensorIds * affected;
      assert Leased(m.sessions, s);
    }
    if s :| s in affected && Leased(m.sessions, s) {
      var id :| id in m.sessions && s in m.sessions[id].sensorIds;
      assert s in m.sessions[id].sensorIds * affected;
    }
  }

  /** Members are there, and none is listed twice. */
  predicate ProperMembers(m: Manager, members: seq<SensorId>) {
    && members != []
    && (forall i, j :: 0 <= i < j < |members| ==> members[i] != members[j])
    && (forall s :: s in members ==> s in m.inventory.cameras)
  }

  /** Nothing but the groups and what is set for them may differ. */
  predicate SameButGroups(m: Manager, n: Manager) {
    && n.inventory.cameras == m.inventory.cameras && n.sessions == m.sessions && n.config == m.config
    && n.modes.sensorModes == m.modes.sensorModes
  }

  /** All other groups have their members, and are asked for what they were asked for. */
  ghost predicate OthersAsBefore(m: Manager, n: Manager, group: GroupId) {
    forall h :: h != group ==>
      && (h in n.inventory.groups <==> h in m.inventory.groups)
      && (h in m.inventory.groups ==> n.inventory.groups[h] == m.inventory.groups[h])
      && RequestedMode(n, h) == RequestedMode(m, h) && RequestedInterval(n, h) == RequestedInterval(m, h)
  }

  lemma AskedAlike(m: Manager, n: Manager, h: GroupId)
    requires n.sessions == m.sessions && n.config == m.config
    requires h in n.modes.groupModes <==> h in m.modes.groupModes
    requires h in m.modes.groupModes ==> n.modes.groupModes[h] == m.modes.groupModes[h]
    requires h in n.modes.groupIntervals <==> h in m.modes.groupIntervals
    requires h in m.modes.groupIntervals ==> n.modes.groupIntervals[h] == m.modes.groupIntervals[h]
    ensures RequestedMode(n, h) == RequestedMode(m, h) && RequestedInterval(n, h) == RequestedInterval(m, h)
  {
    assert NamedIntervals(n, h) == NamedIntervals(m, h);
  }

  /** Editing a group succeeds exactly when nobody holds a camera that is, or was, a member, the members are
      proper and the save is written. It then has these members. A group that had settings keeps them; a new
      one is asked for the default mode and for no interval. Otherwise nothing changes. */
  lemma UpsertIsExact(m: Manager, group: GroupId, members: seq<SensorId>, saved: bool)
    ensures var n := AfterUpsert(m, group, members, saved);
            if saved && ProperMembers(m, members) && !AnyHeld(m, members) && !HeldIn(m, group) then
              && group in n.inventory.groups && n.inventory.groups[group] == members
              && SameButGroups(m, n) && OthersAsBefore(m, n, group)
              && RequestedMode(n, group) == RequestedMode(m, group)
              && RequestedInterval(n, group) == RequestedInterval(m, group)
              && group in n.modes.groupModes && group in n.modes.groupIntervals
            else n == m
  {
    var n := AfterUpsert(m, group, members, saved);
    OwnedIsHeld(m, group, members);
    if saved && ProperMembers(m, members) && !AnyHeld(m, members) && !HeldIn(m, group) {
      forall h | h != group
        ensures RequestedMode(n, h) == RequestedMode(m, h) && RequestedInterval(n, h) == RequestedInterval(m, h)
      {
        AskedAlike(m, n, h);
      }
      assert NamedIntervals(n, group) == NamedIntervals(m, group);
    }
  }

  /** Deleting a group succeeds exactly when it is there, nobody holds a member and the save is written; its
      settings go with it, so a group made again under its name starts from the defaults. */
  lemma DeleteIsExact(m: Manager, group: GroupId, saved: bool)
    requires Inv(m)
    ensures var n := AfterDelete(m, group, saved);
            if group in m.inventory.groups && saved && !HeldIn(m, group) then
              && group !in n.inventory.groups && SameButGroups(m, n) && OthersAsBefore(m, n, group)
              && RequestedMode(n, group) == m.config.defaultGroupMode && RequestedInterval(n, group) == 0
            else n == m
  {
    var n := AfterDelete(m, group, saved);
    OwnedIsHeld(m, group, []);
    if group in m.inventory.groups && saved && !HeldIn(m, group) {
      UnownedGroupIsUnnamed(m, group, Affected(m.inventory, group, []));
      assert NamedIntervals(n, group) == {};
      forall h | h != group
        ensures RequestedMode(n, h) == RequestedMode(m, h) && RequestedInterval(n, h) == RequestedInterval(m, h)
      {
        AskedAlike(m, n, h);
      }
    }
  }

  /** Setting the mode of a group takes effect exactly when the group is there and nobody holds a member: the
      group is then asked for that mode and for no interval. Nothing else is asked of any other group. */
  lemma SetGroupModeIsExact(m: Manager, group: GroupId, mode: Mode)
    requires Inv(m)
    ensures var n := AfterSetGroupMode(m, group, mode);
            if group in m.inventory.groups && !HeldIn(m, group) then
              && RequestedMode(n, group) == mode && RequestedInterval(n, group) == 0
              && n.inventory == m.inventory && SameButGroups(m, n) && OthersAsBefore(m, n, group)
            else n == m
  {
    var n := AfterSetGroupMode(m, group, mode);
    OwnedIsHeld(m, group, []);
    if group in m.inventory.groups && !HeldIn(m, group) {
      UnownedGroupIsUnnamed(m, group, Affected(m.inventory, group, []));
      assert NamedIntervals(n, group) == {};
      forall h | h != group
        ensures RequestedMode(n, h) == RequestedMode(m, h) && RequestedInterval(n, h) == RequestedInterval(m, h)
      {
        AskedAlike(m, n, h);
      }
    }
  }

  // ---------- cameras ----------

  predicate InSomeGroup(m: Manager, s: SensorId) {
    exists g :: g in m.inventory.groups && s in m.inventory.groups[g]
  }

  lemma OwnedAlone(m: Manager, s: SensorId)
    ensures Owned(m.sessions, {s}) <==> Leased(m.sessions, s)
    ensures GroupsOf(m.inventory, s) == {} <==> !InSomeGroup(m, s)
  {
    forall id | id in m.sessions
      ensures m.sessions[id].sensorIds * {s} != {} <==> s in m.sessions[id].sensorIds
    {
      assert s in m.sessions[id].sensorIds ==> s in m.sessions[id].sensorIds * {s};
    }
    if InSomeGroup(m, s) {
      var g :| g in m.inventory.groups && s in m.inventory.groups[g];
      assert g in GroupsOf(m.inventory, s);
    }
  }

  /** Setting the mode of a camera takes effect exactly for a known camera in no group that nobody holds, and
      never to capture: the camera is then assigned that mode. */
  lemma SetSensorModeIsExact(m: Manager, groupOrder: seq<GroupId>, s: SensorId, mode: Mode)
    requires forall g :: g in groupOrder <==> g in m.inventory.groups
    ensures var n := AfterSetSensorMode(m, s, mode);
            if s in m.inventory.cameras && !InSomeGroup(m, s) && !Leased(m.sessions, s) && mode != Capture then
              && AssignmentFor(n, groupOrder, s).mode == mode
              && n == m.(modes := m.modes.(sensorModes := n.modes.sensorModes))
              && (forall x :: x != s ==> (x in n.modes.sensorModes <==> x in m.modes.sensorModes))
              && (forall x :: x != s && x in m.modes.sensorModes ==> n.modes.sensorModes[x] == m.modes.sensorModes[x])
            else n == m
  {
    OwnedAlone(m, s);
    if s in m.inventory.cameras && !InSomeGroup(m, s) && !Leased(m.sessions, s) && mode != Capture {
      var n := AfterSetSensorMode(m, s, mode);
      AssignedModeIsExact(n, groupOrder, s);
      assert forall g, other :: MemberAsked(n, s, g, other) ==> InSomeGroup(m, s);
    }
  }

  /** A camera is forgotten exactly when it is there, is in no group, nobody holds it, it may be removed and the
      save is written; its own setting goes with it. */
  lemma ForgetIsExact(m: Manager, s: SensorId, removable: bool, saved: bool)
    ensures var n := AfterForget(m, s, removable, saved);
            if s in m.inventory.cameras && !InSomeGroup(m, s) && !Leased(m.sessions, s) && removable && saved then
              && (forall x :: x in n.inventory.cameras <==> x in m.inventory.cameras && x != s)
              && (forall x :: x in n.inventory.cameras ==> n.inventory.cameras[x] == m.inventory.cameras[x])
              && s !in n.modes.sensorModes && n.inventory.groups == m.inventory.groups && n.sessions == m.sessions
            else n == m
  {
    OwnedAlone(m, s);
  }

  /** A camera that is not there yet can be enrolled, and one that is can be moved to another network, whoever
      holds it; the provider it is assigned to follows. */
  lemma CamerasComeAndMove(m: Manager, s: SensorId, camera: Camera, network: NetworkId, saved: bool, provider: Provider)
    ensures Assigned(AfterEnroll(m, s, camera, saved), provider, s) <==>
              if s in m.inventory.cameras || !saved then Assigned(m, provider, s)
              else camera.network in m.config.approved && camera.provider == provider
    ensures Assigned(AfterMove(m, s, network, saved), provider, s) <==>
              if saved then
                && s in m.inventory.cameras && network in m.config.approved
                && m.inventory.cameras[s].provider == provider
              else Assigned(m, provider, s)
    ensures forall x :: x != s ==>
              && (Assigned(AfterEnroll(m, s, camera, saved), provider, x) <==> Assigned(m, provider, x))
              && (Assigned(AfterMove(m, s, network, saved), provider, x) <==> Assigned(m, provider, x))
  {
  }
}
