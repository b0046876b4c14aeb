/** What the manager tells the provider about each camera, how the provider folds it back into group
    status, and whether the manager then finds that status current. */
module CaptureAssignments {

  import opened CaptureLeases
  import opened Optional

  // ---------- what a group is asked to do ----------

  predicate Minimum(x: nat, s: set<nat>) {
    x in s && forall y :: y in s ==> x <= y
  }

  /** The least of some numbers, or zero when there are none. */
  ghost function Least(s: set<nat>): nat {
    if x: nat :| Minimum(x, s) then x else 0
  }

  lemma {:induction false} LeastIsMinimum(s: set<nat>)
    ensures if s == {} then Least(s) == 0 else Minimum(Least(s), s)
    decreases s
  {
    if s == {} {
      assert forall x: nat :: !Minimum(x, s);
    } else {
      var x: nat :| x in s;
      if !Minimum(x, s) {
        var below := set y | y in s && y < x;
        assert x !in below;
        LeastIsMinimum(below);
        var y :| y in s && y < x;
        assert y in below;
        forall z | z in s
          ensures Least(below) <= z
        {
          assert z < x ==> z in below;
        }
        assert Minimum(Least(below), s);
      }
    }
  }

  function RequestedMode(m: Manager, g: GroupId): Mode {
    if exists id :: id in m.sessions && Names(m.sessions, id, g) then Capture
    else if g in m.modes.groupModes then m.modes.groupModes[g] else m.config.defaultGroupMode
  }

  function NamedIntervals(m: Manager, g: GroupId): set<nat> {
    set id | id in m.sessions && Names(m.sessions, id, g) && m.sessions[id].request.interval > 0 ::
      m.sessions[id].request.interval
  }

  ghost function RequestedInterval(m: Manager, g: GroupId): nat {
    if NamedIntervals(m, g) != {} then Least(NamedIntervals(m, g))
    else if g in m.modes.groupIntervals then m.modes.groupIntervals[g] else 0
  }

  // ---------- assignments ----------

  datatype Assignment = Assignment(
    sensor: SensorId,
    camera: Camera,
    groups: seq<GroupId>,           // capture_group_ids
    syncGroup: Option<GroupId>,
    mode: Mode,
    reserved: bool,
    interval: nat)

  function MemberGroups(inventory: Inventory, groupOrder: seq<GroupId>, s: SensorId): (ids: seq<GroupId>)
    ensures forall g :: g in ids <==> g in groupOrder && g in inventory.groups && s in inventory.groups[g]
  {
    if groupOrder == [] then []
    else
      var g := groupOrder[|groupOrder| - 1];
      MemberGroups(inventory, groupOrder[..|groupOrder| - 1], s) +
        if g in inventory.groups && s in inventory.groups[g] then [g] else []
  }

  predicate AnyIn(m: Manager, groups: seq<GroupId>, mode: Mode) {
    exists g :: g in groups && RequestedMode(m, g) == mode
  }

  function AssignedMode(m: Manager, groups: seq<GroupId>, s: SensorId): Mode {
    if AnyIn(m, groups, Capture) then Capture
    else if DirectlyOwned(m.sessions, s) then Capture
    else if AnyIn(m, groups, Preview) then Preview
    else if groups != [] then Idle
    else if s in m.modes.sensorModes then m.modes.sensorModes[s] else m.config.defaultSensorMode
  }

  function Capturing(m: Manager, groups: seq<GroupId>): (ids: seq<GroupId>)
    ensures forall g :: g in ids <==> g in groups && RequestedMode(m, g) == Capture
  {
    if groups == [] then []
    else
      var g := groups[|groups| - 1];
      Capturing(m, groups[..|groups| - 1]) + if RequestedMode(m, g) == Capture then [g] else []
  }

  ghost function CaptureIntervals(m: Manager, groups: seq<GroupId>): set<nat> {
    set g | g in groups && RequestedMode(m, g) == Capture && RequestedInterval(m, g) > 0 :: RequestedInterval(m, g)
  }

  ghost function AssignmentFor(m: Manager, groupOrder: seq<GroupId>, s: SensorId): Assignment
    requires s in m.inventory.cameras
  {
    var members := MemberGroups(m.inventory, groupOrder, s);
    var mode := AssignedMode(m, members, s);
    var advertised := if mode == Capture then Capturing(m, members) else members;
    Assignment(s, m.inventory.cameras[s], advertised, if advertised != [] then Some(advertised[0]) else None, mode,
               Leased(m.sessions, s), if mode == Capture then Least(CaptureIntervals(m, advertised)) else 0)
  }

  /** A camera is assigned when its network is approved, to the provider that drives it. */
  predicate Assigned(m: Manager, provider: Provider, s: SensorId) {
    && s in m.inventory.cameras && m.inventory.cameras[s].network in m.config.approved
    && m.inventory.cameras[s].provider == provider
  }

  ghost function Published(m: Manager, sensorOrder: seq<SensorId>, groupOrder: seq<GroupId>, provider: Provider)
    : seq<Assignment>
  {
    if sensorOrder == [] then []
    else
      var s := sensorOrder[|sensorOrder| - 1];
      Published(m, sensorOrder[..|sensorOrder| - 1], groupOrder, provider) +
        if Assigned(m, provider, s) then [AssignmentFor(m, groupOrder, s)] else []
  }

  lemma {:induction false} PublishedOnly(m: Manager, sensorOrder: seq<SensorId>, groupOrder: seq<GroupId>,
                                         provider: Provider, a: Assignment)
    requires a in Published(m, sensorOrder, groupOrder, provider)
    ensures a.sensor in sensorOrder && Assigned(m, provider, a.sensor) && a == AssignmentFor(m, groupOrder, a.sensor)
  {
    var n := |sensorOrder| - 1;
    if a in Published(m, sensorOrder[..n], groupOrder, provider) {
      PublishedOnly(m, sensorOrder[..n], groupOrder, provider, a);
    }
  }

  lemma {:induction false} PublishedAll(m: Manager, sensorOrder: seq<SensorId>, groupOrder: seq<GroupId>,
                                        provider: Provider, s: SensorId)
    requires s in sensorOrder && Assigned(m, provider, s)
    ensures AssignmentFor(m, groupOrder, s) in Published(m, sensorOrder, groupOrder, provider)
  {
    var n := |sensorOrder| - 1;
    if s != sensorOrder[n] {
      PublishedAll(m, sensorOrder[..n], groupOrder, provider, s);
    }
  }

  lemma PublishedAre(m: Manager, sensorOrder: seq<SensorId>, groupOrder: seq<GroupId>, provider: Provider, a: Assignment)
    ensures a in Published(m, sensorOrder, groupOrder, provider) <==>
      exists s :: s in sensorOrder && Assigned(m, provider, s) && a == AssignmentFor(m, groupOrder, s)
  {
    if a in Published(m, sensorOrder, groupOrder, provider) {
      PublishedOnly(m, sensorOrder, groupOrder, provider, a);
    }
    if s :| s in sensorOrder && Assigned(m, provider, s) && a == AssignmentFor(m, groupOrder, s) {
      PublishedAll(m, sensorOrder, groupOrder, provider, s);
    }
  }

  // ---------- leases and assignments ----------

  /** Every leased camera is assigned capture mode and reserved, and no camera is reserved without a lease,
      whatever its other groups ask for. */
  lemma LeasedCameraCaptures(m: Manager, groupOrder: seq<GroupId>, s: SensorId)
    requires Inv(m) && s in m.inventory.cameras
    requires forall g :: g in groupOrder <==> g in m.inventory.groups
    ensures AssignmentFor(m, groupOrder, s).reserved <==> Leased(m.sessions, s)
    ensures Leased(m.sessions, s) ==> AssignmentFor(m, groupOrder, s).mode == Capture
  {
    if Leased(m.sessions, s) {
      var id :| id in m.sessions && s in m.sessions[id].sensorIds;
      var session := m.sessions[id];
      assert Frozen(m.inventory, session);
      if session.request.kind.GroupTarget? {
        var g :| g in session.request.targets && s in m.inventory.groups[g];
        assert Names(m.sessions, id, g);
        assert g in MemberGroups(m.inventory, groupOrder, s);
        assert AnyIn(m, MemberGroups(m.inventory, groupOrder, s), Capture);
      }
    }
  }

  /** The cameras of a lease are the union of the members its groups have now, or the cameras it named. */
  predicate CoversItsTargets(inventory: Inventory, session: Session) {
    && (forall g :: g in session.groupIds ==> g in inventory.groups)
    && session.sensorIds == if session.request.kind.GroupTarget? then Union(inventory.groups, session.groupIds)
                            else set s | s in session.request.targets
  }

  /** Over every run of the manager: exclusive leases overlap no other lease; every group a live lease names
      still exists, and the lease's cameras are exactly the union of the members those groups have now;
      and each leased camera on an approved network is told to capture and is reserved. */
  lemma LeaseGuarantees(m: Manager, events: seq<Event>, sensorOrder: seq<SensorId>, groupOrder: seq<GroupId>,
                        provider: Provider)
    requires Inv(m)
    requires var n := Run(m, events); forall g :: g in groupOrder <==> g in n.inventory.groups
    requires var n := Run(m, events); forall s :: s in sensorOrder <==> s in n.inventory.cameras
    ensures var n := Run(m, events);
            && Exclusive(n.sessions)
            && (forall id :: id in n.sessions ==> CoversItsTargets(n.inventory, n.sessions[id]))
            && (forall id, s :: id in n.sessions && s in n.sessions[id].sensorIds ==> s in n.inventory.cameras)
            && (forall s :: Leased(n.sessions, s) && Assigned(n, provider, s) ==>
                  exists a :: a in Published(n, sensorOrder, groupOrder, provider) && a.sensor == s &&
                              a.mode == Capture && a.reserved)
  {
    RunsKeepInvariant(m, events);
    var n := Run(m, events);
    forall id | id in n.sessions
      ensures CoversItsTargets(n.inventory, n.sessions[id])
    {
      assert Frozen(n.inventory, n.sessions[id]);
    }
    forall id, s | id in n.sessions && s in n.sessions[id].sensorIds
      ensures s in n.inventory.cameras
    {
      LeasedCamerasAreEnrolled(n, id, s);
    }
    forall s | Leased(n.sessions, s) && Assigned(n, provider, s)
      ensures exists a :: a in Published(n, sensorOrder, groupOrder, provider) && a.sensor == s &&
                          a.mode == Capture && a.reserved
    {
      var a := AssignmentFor(n, groupOrder, s);
      LeasedCameraCaptures(n, groupOrder, s);
      PublishedAre(n, sensorOrder, groupOrder, provider, a);
    }
  }

  lemma LeasedCamerasAreEnrolled(m: Manager, id: SessionId, s: SensorId)
    requires Inv(m) && id in m.sessions && s in m.sessions[id].sensorIds
    ensures s in m.inventory.cameras
  {
    var session := m.sessions[id];
    assert Frozen(m.inventory, session);
    if session.request.kind.GroupTarget? {
      var g :| g in session.request.targets && s in m.inventory.groups[g];
      assert ValidMembers(m.inventory, m.inventory.groups[g]);
    }
  }

  /** The mode shown for one camera, computed on its own. */
  function ModeForSensor(m: Manager, groups: seq<GroupId>, s: SensorId): Mode {
    if groups == [] then
      if DirectlyOwned(m.sessions, s) then Capture
      else if s in m.modes.sensorModes then m.modes.sensorModes[s] else m.config.defaultSensorMode
    else if AnyIn(m, groups, Capture) then Capture
    else if DirectlyOwned(m.sessions, s) then Capture
    else if AnyIn(m, groups, Preview) then Preview
    else Idle
  }

  /** The two computations of a camera's mode agree, in whatever order each lists its groups. */
  lemma ModesAgree(m: Manager, groupOrder: seq<GroupId>, groups: seq<GroupId>, s: SensorId)
    requires s in m.inventory.cameras
    requires forall g :: g in groupOrder <==> g in m.inventory.groups
    requires forall g :: g in groups <==> g in GroupsOf(m.inventory, s)
    ensures ModeForSensor(m, groups, s) == AssignmentFor(m, groupOrder, s).mode
  {
    var members := MemberGroups(m.inventory, groupOrder, s);
    assert forall g :: g in members <==> g in groups;
    assert groups == [] <==> members == [] by {
      if groups != [] {
        assert groups[0] in members;
      }
      if members != [] {
        assert members[0] in groups;
      }
    }
    assert forall mode :: AnyIn(m, groups, mode) <==> AnyIn(m, members, mode);
  }

  // ---------- the provider's group status ----------

  datatype StatusMode = Uniform(mode: Mode) | Mixed

  datatype GroupStatus = GroupStatus(mode: StatusMode, members: seq<SensorId>, interval: nat)

  function ReportedGroups(a: Assignment): seq<GroupId> {
    if a.groups != [] then a.groups else if a.syncGroup.None? then [] else [a.syncGroup.value]
  }

  function Joined(status: map<GroupId, GroupStatus>, a: Assignment, g: GroupId): map<GroupId, GroupStatus> {
    if g !in status then status[g := GroupStatus(Uniform(a.mode), [a.sensor], a.interval)]
    else
      var was := status[g];
      status[g := GroupStatus(if was.mode != Uniform(a.mode) then Mixed else was.mode, was.members + [a.sensor],
                              if was.interval < a.interval then a.interval else was.interval)]
  }

  function JoinedAll(status: map<GroupId, GroupStatus>, a: Assignment, groups: seq<GroupId>)
    : map<GroupId, GroupStatus>
    decreases groups
  {
    if groups == [] then status
    else Joined(JoinedAll(status, a, groups[..|groups| - 1]), a, groups[|groups| - 1])
  }

  function Folded(items: seq<Assignment>): map<GroupId, GroupStatus> {
    if items == [] then map[]
    else
      var a := items[|items| - 1];
      JoinedAll(Folded(items[..|items| - 1]), a, ReportedGroups(a))
  }

  predicate Lists(items: seq<Assignment>, a: Assignment, g: GroupId) {
    a in items && g in ReportedGroups(a)
  }

  /** What a folded status says of a group: its members are those that list it, its interval the longest
      of theirs, and its mode theirs if they all have the same one. */
  ghost predicate Summarises(status: map<GroupId, GroupStatus>, items: seq<Assignment>, g: GroupId) {
    && (g in status <==> exists a :: Lists(items, a, g))
    && (g in status ==>
          && (forall s :: s in status[g].members <==> exists a :: Lists(items, a, g) && a.sensor == s)
          && (forall a :: Lists(items, a, g) ==> a.interval <= status[g].interval)
          && (exists a :: Lists(items, a, g) && a.interval == status[g].interval)
          && (forall mode :: status[g].mode == Uniform(mode) <==> forall a :: Lists(items, a, g) ==> a.mode == mode))
  }

  lemma {:induction false} JoinedAllTouches(status: map<GroupId, GroupStatus>, a: Assignment, groups: seq<GroupId>,
                                            g: GroupId)
    ensures var after := JoinedAll(status, a, groups);
            && (g !in groups ==> (g in after <==> g in status) && (g in status ==> after[g] == status[g]))
            && (g in groups ==> g in after && JoinedTo(status, after[g], a, g))
    decreases groups
  {
    if groups != [] {
      var n := |groups| - 1;
      assert groups == groups[..n] + [groups[n]];
      JoinedAllTouches(status, a, groups[..n], g);
    }
  }

  /** One camera more, listed once or several times. */
  ghost predicate JoinedTo(status: map<GroupId, GroupStatus>, after: GroupStatus, a: Assignment, g: GroupId) {
    if g !in status then
      after.mode == Uniform(a.mode) && after.interval == a.interval && forall s :: s in after.members <==> s == a.sensor
    else
      && after.mode == (if status[g].mode == Uniform(a.mode) then Uniform(a.mode) else Mixed)
      && after.interval == (if status[g].interval < a.interval then a.interval else status[g].interval)
      && forall s :: s in after.members <==> s in status[g].members || s == a.sensor
  }

  lemma {:induction false} FoldSummarises(items: seq<Assignment>, g: GroupId)
    ensures Summarises(Folded(items), items, g)
  {
    if items != [] {
      var n := |items| - 1;
      var front, a := items[..n], items[n];
      assert items == front + [a];
      FoldSummarises(front, g);
      JoinedAllTouches(Folded(front), a, ReportedGroups(a), g);
      SummaryGrows(Folded(front), Folded(items), front, a, g);
    }
  }

  lemma SummaryGrows(status: map<GroupId, GroupStatus>, after: map<GroupId, GroupStatus>, front: seq<Assignment>,
                     a: Assignment, g: GroupId)
    requires Summarises(status, front, g)
    requires if g in ReportedGroups(a) then g in after && JoinedTo(status, after[g], a, g)
             else (g in after <==> g in status) && (g in status ==> after[g] == status[g])
    ensures Summarises(after, front + [a], g)
  {
    var items := front + [a];
    assert forall b :: Lists(items, b, g) <==> Lists(front, b, g) || (b == a && g in ReportedGroups(a));
    if g in ReportedGroups(a) {
      assert Lists(items, a, g);
      if g in status {
        var least :| Lists(front, least, g) && least.interval == status[g].interval;
        assert Lists(items, least, g);
        forall mode
          ensures after[g].mode == Uniform(mode) <==> forall b :: Lists(items, b, g) ==> b.mode == mode
        {
          assert Lists(items, least, g);
        }
      }
    }
  }

  // ---------- agreement ----------

  predicate IsCurrent(status: Option<GroupStatus>, members: seq<SensorId>, mode: Mode, interval: nat) {
    && status.Some?
    && (mode == Idle || status.value.mode == Uniform(mode))
    && (interval == 0 || 0 < status.value.interval <= interval)
    && (set s | s in status.value.members) == (set s | s in members)
  }

  function StatusOf(items: seq<Assignment>, g: GroupId): Option<GroupStatus> {
    if g in Folded(items) then Some(Folded(items)[g]) else None
  }

  /** A camera lists a capturing group exactly when it is one of its members, and then it captures at least
      as often as the group asks. */
  lemma MembersListTheirGroup(m: Manager, groupOrder: seq<GroupId>, s: SensorId, g: GroupId)
    requires s in m.inventory.cameras && g in m.inventory.groups && RequestedMode(m, g) == Capture
    requires forall x :: x in groupOrder <==> x in m.inventory.groups
    ensures var a := AssignmentFor(m, groupOrder, s);
            && (g in ReportedGroups(a) <==> s in m.inventory.groups[g])
            && (g in ReportedGroups(a) ==> a.mode == Capture)
            && (g in ReportedGroups(a) && RequestedInterval(m, g) > 0 ==> 0 < a.interval <= RequestedInterval(m, g))
  {
    var a := AssignmentFor(m, groupOrder, s);
    var members := MemberGroups(m.inventory, groupOrder, s);
    assert ReportedGroups(a) == a.groups;
    if s in m.inventory.groups[g] {
      assert g in members && AnyIn(m, members, Capture);
      assert g in Capturing(m, members);
      var intervals := CaptureIntervals(m, a.groups);
      LeastIsMinimum(intervals);
      if RequestedInterval(m, g) > 0 {
        assert RequestedInterval(m, g) in intervals;
        assert Least(intervals) in intervals;
      }
    }
  }

  /** The manager finds the provider's status of a capturing group current exactly when all the group's
      cameras are assigned to that provider, whatever other groups and leases share those cameras, and in
      whatever order assignments are sent and folded. */
  lemma AgreementIsExact(m: Manager, sensorOrder: seq<SensorId>, groupOrder: seq<GroupId>, provider: Provider,
                         held: seq<Assignment>, g: GroupId)
    requires Registered(m.inventory) && g in m.inventory.groups && RequestedMode(m, g) == Capture
    requires forall x :: x in groupOrder <==> x in m.inventory.groups
    requires forall s :: s in sensorOrder <==> s in m.inventory.cameras
    requires forall a :: a in held <==> a in Published(m, sensorOrder, groupOrder, provider)
    ensures IsCurrent(StatusOf(held, g), m.inventory.groups[g], Capture, RequestedInterval(m, g)) <==>
      forall s :: s in m.inventory.groups[g] ==> Assigned(m, provider, s)
  {
    FoldSummarises(held, g);
    var members := m.inventory.groups[g];
    forall a
      ensures Lists(held, a, g) <==>
        Assigned(m, provider, a.sensor) && a.sensor in members && a == AssignmentFor(m, groupOrder, a.sensor)
    {
      PublishedAre(m, sensorOrder, groupOrder, provider, a);
      if a.sensor in m.inventory.cameras {
        MembersListTheirGroup(m, groupOrder, a.sensor, g);
      }
    }
    forall s | Assigned(m, provider, s) && s in members
      ensures Lists(held, AssignmentFor(m, groupOrder, s), g)
    {
    }
    forall a | Lists(held, a, g)
      ensures a.mode == Capture && (RequestedInterval(m, g) > 0 ==> 0 < a.interval <= RequestedInterval(m, g))
    {
      MembersListTheirGroup(m, groupOrder, a.sensor, g);
    }
    if IsCurrent(StatusOf(held, g), members, Capture, RequestedInterval(m, g)) {
      CurrentMeansAssigned(m, provider, held, g, members, RequestedInterval(m, g));
    }
    if forall s :: s in members ==> Assigned(m, provider, s) {
      AssignedMeansCurrent(m, provider, held, g, members, RequestedInterval(m, g));
    }
  }

  lemma SameMembers(a: seq<SensorId>, b: seq<SensorId>)
    ensures (set s | s in a) == (set s | s in b) <==> forall s :: s in a <==> s in b
  {
    var x, y := set s | s in a, set s | s in b;
    assert forall s :: (s in x <==> s in a) && (s in y <==> s in b);
  }

  lemma CurrentMeansAssigned(m: Manager, provider: Provider, held: seq<Assignment>, g: GroupId, members: seq<SensorId>,
                             asked: nat)
    requires Summarises(Folded(held), held, g)
    requires forall a :: Lists(held, a, g) ==> Assigned(m, provider, a.sensor)
    requires IsCurrent(StatusOf(held, g), members, Capture, asked)
    ensures forall s :: s in members ==> Assigned(m, provider, s)
  {
    SameMembers(Folded(held)[g].members, members);
  }

  lemma AssignedMeansCurrent(m: Manager, provider: Provider, held: seq<Assignment>, g: GroupId, members: seq<SensorId>,
                             asked: nat)
    requires members != [] && Summarises(Folded(held), held, g)
    requires forall a :: Lists(held, a, g) ==> a.mode == Capture && a.sensor in members
    requires forall a :: Lists(held, a, g) && asked > 0 ==> 0 < a.interval <= asked
    requires forall s :: s in members ==> exists a :: Lists(held, a, g) && a.sensor == s
    ensures IsCurrent(StatusOf(held, g), members, Capture, asked)
  {
    assert members[0] in members;
    SameMembers(Folded(held)[g].members, members);
  }

  // ---------- agreement on groups that do not capture ----------

  /** A member that nothing else makes capture. */
  predicate LeftAlone(m: Manager, s: SensorId) {
    !DirectlyOwned(m.sessions, s) && forall g :: g in GroupsOf(m.inventory, s) ==> RequestedMode(m, g) != Capture
  }

  /** A camera lists a previewing or idle group exactly when it is a member that does not capture; it is then
      in the group's mode if that is preview, and asked for no interval. */
  lemma MembersListTheirQuietGroup(m: Manager, groupOrder: seq<GroupId>, s: SensorId, g: GroupId)
    requires s in m.inventory.cameras && g in m.inventory.groups && RequestedMode(m, g) != Capture
    requires forall x :: x in groupOrder <==> x in m.inventory.groups
    ensures var a := AssignmentFor(m, groupOrder, s);
            && (g in ReportedGroups(a) <==> s in m.inventory.groups[g] && LeftAlone(m, s))
            && (g in ReportedGroups(a) ==> a.interval == 0 && (RequestedMode(m, g) == Preview ==> a.mode == Preview))
  {
    var a := AssignmentFor(m, groupOrder, s);
    var members := MemberGroups(m.inventory, groupOrder, s);
    assert ReportedGroups(a) == a.groups;
    assert forall x :: x in members <==> x in GroupsOf(m.inventory, s);
    if s in m.inventory.groups[g] {
      assert g in members;
      assert a.mode == Capture <==> !LeftAlone(m, s);
    }
  }

  /** For a group that is not asked to capture, the status is current if and only if no interval is asked and
      every member is assigned to the provider and made to capture neither by another group nor by a lease of
      its own. */
  lemma QuietAgreementIsExact(m: Manager, sensorOrder: seq<SensorId>, groupOrder: seq<GroupId>, provider: Provider,
                              held: seq<Assignment>, g: GroupId)
    requires Registered(m.inventory) && g in m.inventory.groups && RequestedMode(m, g) != Capture
    requires forall x :: x in groupOrder <==> x in m.inventory.groups
    requires forall s :: s in sensorOrder <==> s in m.inventory.cameras
    requires forall a :: a in held <==> a in Published(m, sensorOrder, groupOrder, provider)
    ensures IsCurrent(StatusOf(held, g), m.inventory.groups[g], RequestedMode(m, g), RequestedInterval(m, g)) <==>
      && RequestedInterval(m, g) == 0
      && forall s :: s in m.inventory.groups[g] ==> Assigned(m, provider, s) && LeftAlone(m, s)
  {
    FoldSummarises(held, g);
    var members := m.inventory.groups[g];
    forall a
      ensures Lists(held, a, g) <==>
        && Assigned(m, provider, a.sensor) && a.sensor in members && LeftAlone(m, a.sensor)
        && a == AssignmentFor(m, groupOrder, a.sensor)
    {
      PublishedAre(m, sensorOrder, groupOrder, provider, a);
      if a.sensor in m.inventory.cameras {
        MembersListTheirQuietGroup(m, groupOrder, a.sensor, g);
      }
    }
    forall s | Assigned(m, provider, s) && s in members && LeftAlone(m, s)
      ensures Lists(held, AssignmentFor(m, groupOrder, s), g)
    {
    }
    forall a | Lists(held, a, g)
      ensures a.interval == 0 && (RequestedMode(m, g) == Preview ==> a.mode == Preview)
    {
      MembersListTheirQuietGroup(m, groupOrder, a.sensor, g);
    }
    if IsCurrent(StatusOf(held, g), members, RequestedMode(m, g), RequestedInterval(m, g)) {
      QuietCurrentMeansAlone(m, provider, held, g, members, RequestedMode(m, g), RequestedInterval(m, g));
    }
    if RequestedInterval(m, g) == 0 && forall s :: s in members ==> Assigned(m, provider, s) && LeftAlone(m, s) {
      QuietAloneMeansCurrent(held, g, members, RequestedMode(m, g));
    }
  }

  lemma QuietCurrentMeansAlone(m: Manager, provider: Provider, held: seq<Assignment>, g: GroupId,
                               members: seq<SensorId>, mode: Mode, asked: nat)
    requires Summarises(Folded(held), held, g)
    requires forall a :: Lists(held, a, g) ==> Assigned(m, provider, a.sensor) && LeftAlone(m, a.sensor) && a.interval == 0
    requires IsCurrent(StatusOf(held, g), members, mode, asked)
    ensures asked == 0 && forall s :: s in members ==> Assigned(m, provider, s) && LeftAlone(m, s)
  {
    SameMembers(Folded(held)[g].members, members);
  }

  lemma QuietAloneMeansCurrent(held: seq<Assignment>, g: GroupId, members: seq<SensorId>, mode: Mode)
    requires members != [] && mode != Capture && Summarises(Folded(held), held, g)
    requires forall a :: Lists(held, a, g) ==> a.sensor in members && (mode == Preview ==> a.mode == Preview)
    requires forall s :: s in members ==> exists a :: Lists(held, a, g) && a.sensor == s
    ensures IsCurrent(StatusOf(held, g), members, mode, 0)
  {
    assert members[0] in members;
    SameMembers(Folded(held)[g].members, members);
  }
}
