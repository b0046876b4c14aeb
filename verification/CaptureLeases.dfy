/** The manager's capture leases: shared or exclusive claims on cameras, taken directly or through
    overlapping groups, beside edits of groups, modes and the inventory. */
module CaptureLeases {

  import opened Sequences

  // Identifiers are names, numbered in their sort order.
  type SensorId = nat
  type GroupId = nat
  type SessionId = nat
  type NetworkId = nat
  type Provider = nat

  datatype Mode = Idle | Preview | Capture

  datatype TargetKind = GroupTarget | SensorTarget | UnknownTarget

  datatype Request = Request(kind: TargetKind, targets: seq<nat>, interval: nat, exclusive: bool)

  datatype Session = Session(
    request: Request,
    groupIds: seq<GroupId>,
    sensorIds: set<SensorId>,
    expires: real)

  datatype Camera = Camera(network: NetworkId, provider: Provider)

  datatype Inventory = Inventory(cameras: map<SensorId, Camera>, groups: map<GroupId, seq<SensorId>>)

  datatype Modes = Modes(
    groupModes: map<GroupId, Mode>, groupIntervals: map<GroupId, nat>, sensorModes: map<SensorId, Mode>)

  datatype Config = Config(approved: set<NetworkId>, ttl: real, defaultGroupMode: Mode, defaultSensorMode: Mode)

  datatype Manager = Manager(config: Config, inventory: Inventory, modes: Modes, sessions: map<SessionId, Session>)

  // ---------- leases ----------

  function Union(groups: map<GroupId, seq<SensorId>>, ids: seq<GroupId>): set<SensorId>
    requires forall g :: g in ids ==> g in groups
  {
    set g, s | g in ids && s in groups[g] :: s
  }

  predicate ValidInterval(interval: nat) {
    interval == 0 || 100 <= interval <= 86_400_000
  }

  predicate ValidTargets(inventory: Inventory, request: Request) {
    && request.targets != [] && Distinct(request.targets)
    && match request.kind
       case GroupTarget => forall g :: g in request.targets ==> g in inventory.groups
       case SensorTarget => forall s :: s in request.targets ==> s in inventory.cameras
       case UnknownTarget => false
  }

  function TargetSensors(inventory: Inventory, request: Request): set<SensorId>
    requires ValidTargets(inventory, request)
  {
    if request.kind.GroupTarget? then Union(inventory.groups, request.targets)
    else set s | s in request.targets
  }

  predicate Conflicts(session: Session, wanted: set<SensorId>, exclusive: bool) {
    session.sensorIds * wanted != {} && (exclusive || session.request.exclusive)
  }

  predicate Available(sessions: map<SessionId, Session>, wanted: set<SensorId>, exclusive: bool) {
    forall id :: id in sessions ==> !Conflicts(sessions[id], wanted, exclusive)
  }

  predicate Grantable(m: Manager, request: Request) {
    && ValidInterval(request.interval) && ValidTargets(m.inventory, request)
    && Available(m.sessions, TargetSensors(m.inventory, request), request.exclusive)
  }

  function Granted(m: Manager, request: Request, now: real): Session
    requires ValidTargets(m.inventory, request)
  {
    Session(request, if request.kind.GroupTarget? then request.targets else [],
            TargetSensors(m.inventory, request), now + m.config.ttl)
  }

  predicate Owned(sessions: map<SessionId, Session>, sensors: set<SensorId>) {
    exists id :: id in sessions && sessions[id].sensorIds * sensors != {}
  }

  predicate Names(sessions: map<SessionId, Session>, id: SessionId, g: GroupId) {
    id in sessions && g in sessions[id].groupIds
  }

  predicate Leased(sessions: map<SessionId, Session>, s: SensorId) {
    exists id :: id in sessions && s in sessions[id].sensorIds
  }

  predicate DirectlyOwned(sessions: map<SessionId, Session>, s: SensorId) {
    exists id :: id in sessions && sessions[id].request.kind.SensorTarget? && s in sessions[id].sensorIds
  }

  function GroupsOf(inventory: Inventory, s: SensorId): set<GroupId> {
    set g | g in inventory.groups && s in inventory.groups[g]
  }

  // ---------- the steps ----------

  /** `saved` is whether writing the inventory succeeded; `removable` whether the camera is offline or
      its removal forced. */
  datatype Event =
    | Acquire(id: SessionId, request: Request, now: real)
    | Renew(id: SessionId, now: real)
    | Release(id: SessionId)
    | Expire(now: real)
    | UpsertGroup(group: GroupId, members: seq<SensorId>, saved: bool)
    | DeleteGroup(group: GroupId, saved: bool)
    | SetGroupMode(group: GroupId, mode: Mode)
    | SetSensorMode(sensor: SensorId, mode: Mode)
    | Forget(sensor: SensorId, removable: bool, saved: bool)
    | Enroll(sensor: SensorId, camera: Camera, saved: bool)
    | Move(sensor: SensorId, network: NetworkId, saved: bool)

  function AfterAcquire(m: Manager, id: SessionId, request: Request, now: real): Manager {
    if Grantable(m, request) then m.(sessions := m.sessions[id := Granted(m, request, now)]) else m
  }

  function AfterRenew(m: Manager, id: SessionId, now: real): Manager {
    if id !in m.sessions then m
    else m.(sessions := m.sessions[id := m.sessions[id].(expires := now + m.config.ttl)])
  }

  function Expired(sessions: map<SessionId, Session>, now: real): set<SessionId> {
    set id | id in sessions && sessions[id].expires <= now
  }

  predicate ValidMembers(inventory: Inventory, members: seq<SensorId>) {
    members != [] && Distinct(members) && forall s :: s in members ==> s in inventory.cameras
  }

  function Affected(inventory: Inventory, group: GroupId, members: seq<SensorId>): set<SensorId> {
    (set s | s in members) + if group in inventory.groups then set s | s in inventory.groups[group] else {}
  }

  function AfterUpsert(m: Manager, group: GroupId, members: seq<SensorId>, saved: bool): Manager {
    if Owned(m.sessions, Affected(m.inventory, group, members)) then m
    else if !saved || !ValidMembers(m.inventory, members) then m
    else
      var modes := Modes(if group in m.modes.groupModes then m.modes.groupModes
                         else m.modes.groupModes[group := m.config.defaultGroupMode],
                         if group in m.modes.groupIntervals then m.modes.groupIntervals
                         else m.modes.groupIntervals[group := 0],
                         m.modes.sensorModes);
      m.(inventory := m.inventory.(groups := m.inventory.groups[group := members]), modes := modes)
  }

  function AfterDelete(m: Manager, group: GroupId, saved: bool): Manager {
    if group !in m.inventory.groups || Owned(m.sessions, Affected(m.inventory, group, [])) || !saved then m
    else
      m.(inventory := m.inventory.(groups := m.inventory.groups - {group}),
         modes := Modes(m.modes.groupModes - {group}, m.modes.groupIntervals - {group}, m.modes.sensorModes))
  }

  function AfterSetGroupMode(m: Manager, group: GroupId, mode: Mode): Manager {
    if group !in m.inventory.groups || Owned(m.sessions, Affected(m.inventory, group, [])) then m
    else m.(modes := m.modes.(groupModes := m.modes.groupModes[group := mode],
                              groupIntervals := m.modes.groupIntervals[group := 0]))
  }

  function AfterSetSensorMode(m: Manager, sensor: SensorId, mode: Mode): Manager {
    if || sensor !in m.inventory.cameras || Owned(m.sessions, {sensor})
       || GroupsOf(m.inventory, sensor) != {} || mode == Capture
    then m
    else m.(modes := m.modes.(sensorModes := m.modes.sensorModes[sensor := mode]))
  }

  function AfterForget(m: Manager, sensor: SensorId, removable: bool, saved: bool): Manager {
    if || GroupsOf(m.inventory, sensor) != {} || Owned(m.sessions, {sensor}) || !removable
       || sensor !in m.inventory.cameras || !saved
    then m
    else m.(inventory := m.inventory.(cameras := m.inventory.cameras - {sensor}),
            modes := m.modes.(sensorModes := m.modes.sensorModes - {sensor}))
  }

  function AfterEnroll(m: Manager, sensor: SensorId, camera: Camera, saved: bool): Manager {
    if sensor in m.inventory.cameras || !saved then m
    else m.(inventory := m.inventory.(cameras := m.inventory.cameras[sensor := camera]))
  }

  function AfterMove(m: Manager, sensor: SensorId, network: NetworkId, saved: bool): Manager {
    if sensor !in m.inventory.cameras || !saved then m
    else
      var camera := m.inventory.cameras[sensor].(network := network);
      m.(inventory := m.inventory.(cameras := m.inventory.cameras[sensor := camera]))
  }

  /** Session identifiers are random and never repeat. */
  predicate Enabled(m: Manager, e: Event) {
    e.Acquire? ==> e.id !in m.sessions
  }

  function Step(m: Manager, e: Event): Manager {
    match e
    case Acquire(id, request, now) => AfterAcquire(m, id, request, now)
    case Renew(id, now) => AfterRenew(m, id, now)
    case Release(id) => m.(sessions := m.sessions - {id})
    case Expire(now) => m.(sessions := m.sessions - Expired(m.sessions, now))
    case UpsertGroup(group, members, saved) => AfterUpsert(m, group, members, saved)
    case DeleteGroup(group, saved) => AfterDelete(m, group, saved)
    case SetGroupMode(group, mode) => AfterSetGroupMode(m, group, mode)
    case SetSensorMode(sensor, mode) => AfterSetSensorMode(m, sensor, mode)
    case Forget(sensor, removable, saved) => AfterForget(m, sensor, removable, saved)
    case Enroll(sensor, camera, saved) => AfterEnroll(m, sensor, camera, saved)
    case Move(sensor, network, saved) => AfterMove(m, sensor, network, saved)
  }

  function Run(m: Manager, events: seq<Event>): Manager
    decreases events
  {
    if events == [] then m else Run(if Enabled(m, events[0]) then Step(m, events[0]) else m, events[1..])
  }

  // ---------- what every step keeps ----------

  /** An exclusive lease shares no camera with another lease. */
  predicate Exclusive(sessions: map<SessionId, Session>) {
    forall i, j :: i in sessions && j in sessions && i != j && sessions[i].request.exclusive ==>
      sessions[i].sensorIds * sessions[j].sensorIds == {}
  }

  /** What a lease names is still there, and unchanged since it was granted. */
  predicate Frozen(inventory: Inventory, session: Session) {
    && ValidTargets(inventory, session.request)
    && session.groupIds == (if session.request.kind.GroupTarget? then session.request.targets else [])
    && session.sensorIds == TargetSensors(inventory, session.request)
  }

  predicate AllFrozen(inventory: Inventory, sessions: map<SessionId, Session>) {
    forall id :: id in sessions ==> Frozen(inventory, sessions[id])
  }

  predicate Registered(inventory: Inventory) {
    forall g :: g in inventory.groups ==> ValidMembers(inventory, inventory.groups[g])
  }

  predicate Inv(m: Manager) {
    Exclusive(m.sessions) && AllFrozen(m.inventory, m.sessions) && Registered(m.inventory)
  }

  /** The manager starts without leases, over whatever inventory the registry has validated. */
  lemma NoSessionsHolds(m: Manager)
    requires Registered(m.inventory) && m.sessions == map[]
    ensures Inv(m)
  {
  }

  lemma AcquireKeeps(m: Manager, id: SessionId, request: Request, now: real)
    requires Inv(m) && id !in m.sessions
    ensures Inv(AfterAcquire(m, id, request, now))
  {
    if Grantable(m, request) {
      var granted := Granted(m, request, now);
      var sessions := m.sessions[id := granted];
      forall i, j | i in sessions && j in sessions && i != j && sessions[i].request.exclusive
        ensures sessions[i].sensorIds * sessions[j].sensorIds == {}
      {
        if i == id {
          assert !Conflicts(m.sessions[j], granted.sensorIds, request.exclusive);
          assert granted.sensorIds * m.sessions[j].sensorIds == m.sessions[j].sensorIds * granted.sensorIds;
        } else if j == id {
          assert !Conflicts(m.sessions[i], granted.sensorIds, request.exclusive);
        }
      }
    }
  }

  /** Dropping leases, or changing only when they end, loosens nothing. */
  lemma FewerSessionsKeep(m: Manager, sessions: map<SessionId, Session>)
    requires Inv(m) && sessions.Keys <= m.sessions.Keys
    requires forall id :: id in sessions ==> sessions[id] == m.sessions[id].(expires := sessions[id].expires)
    ensures Inv(m.(sessions := sessions))
  {
  }

  /** No lease names a group whose cameras nobody holds: its members would be held. */
  lemma UnownedGroupIsUnnamed(m: Manager, group: GroupId, sensors: set<SensorId>)
    requires Inv(m) && group in m.inventory.groups && (set s | s in m.inventory.groups[group]) <= sensors
    requires !Owned(m.sessions, sensors)
    ensures forall id :: id in m.sessions ==> group !in m.sessions[id].groupIds
  {
    var s := m.inventory.groups[group][0];
    assert s in m.inventory.groups[group] && s in sensors;
    forall id | id in m.sessions
      ensures group !in m.sessions[id].groupIds
    {
      assert Frozen(m.inventory, m.sessions[id]);
      assert s !in m.sessions[id].sensorIds * sensors;
    }
  }

  /** Editing a group no lease names leaves every lease as it was. */
  lemma EditKeepsFrozen(m: Manager, groups: map<GroupId, seq<SensorId>>, group: GroupId)
    requires AllFrozen(m.inventory, m.sessions)
    requires forall id :: id in m.sessions ==> group !in m.sessions[id].groupIds
    requires forall g :: g != group ==> (g in groups <==> g in m.inventory.groups)
    requires forall g :: g != group && g in groups ==> groups[g] == m.inventory.groups[g]
    ensures AllFrozen(m.inventory.(groups := groups), m.sessions)
  {
    var edited := m.inventory.(groups := groups);
    forall id | id in m.sessions
      ensures Frozen(edited, m.sessions[id])
    {
      var session := m.sessions[id];
      assert Frozen(m.inventory, session);
      if session.request.kind.GroupTarget? {
        assert forall g :: g in session.request.targets ==> g != group && g in m.inventory.groups;
        assert Union(groups, session.request.targets) == Union(m.inventory.groups, session.request.targets);
      }
    }
  }

  lemma UpsertKeeps(m: Manager, group: GroupId, members: seq<SensorId>, saved: bool)
    requires Inv(m)
    ensures Inv(AfterUpsert(m, group, members, saved))
  {
    var affected := Affected(m.inventory, group, members);
    if !Owned(m.sessions, affected) && saved && ValidMembers(m.inventory, members) {
      var groups := m.inventory.groups[group := members];
      if group in m.inventory.groups {
        UnownedGroupIsUnnamed(m, group, affected);
      } else {
        forall id | id in m.sessions
          ensures group !in m.sessions[id].groupIds
        {
          assert Frozen(m.inventory, m.sessions[id]);
        }
      }
      EditKeepsFrozen(m, groups, group);
    }
  }

  lemma DeleteKeeps(m: Manager, group: GroupId, saved: bool)
    requires Inv(m)
    ensures Inv(AfterDelete(m, group, saved))
  {
    var affected := Affected(m.inventory, group, []);
    if group in m.inventory.groups && !Owned(m.sessions, affected) && saved {
      UnownedGroupIsUnnamed(m, group, affected);
      EditKeepsFrozen(m, m.inventory.groups - {group}, group);
    }
  }

  /** Cameras may come, and go when nothing refers to them. */
  lemma CamerasKeepFrozen(m: Manager, cameras: map<SensorId, Camera>)
    requires Inv(m)
    requires forall s :: s in m.inventory.cameras && s !in cameras ==>
               !Owned(m.sessions, {s}) && GroupsOf(m.inventory, s) == {}
    ensures Inv(m.(inventory := m.inventory.(cameras := cameras)))
  {
    var inventory := m.inventory.(cameras := cameras);
    forall id | id in m.sessions
      ensures Frozen(inventory, m.sessions[id])
    {
      var session := m.sessions[id];
      assert Frozen(m.inventory, session);
      if session.request.kind.SensorTarget? {
        forall s | s in session.request.targets
          ensures s in cameras
        {
          assert s in session.sensorIds * {s};
        }
      }
    }
    forall g | g in inventory.groups
      ensures ValidMembers(inventory, inventory.groups[g])
    {
      assert ValidMembers(m.inventory, m.inventory.groups[g]);
      forall s | s in inventory.groups[g]
        ensures s in cameras
      {
        assert g in GroupsOf(m.inventory, s);
      }
    }
  }

  lemma StepKeeps(m: Manager, e: Event)
    requires Inv(m) && Enabled(m, e)
    ensures Inv(Step(m, e))
  {
    match e
    case Acquire(id, request, now) => AcquireKeeps(m, id, request, now);
    case Renew(id, now) => FewerSessionsKeep(m, AfterRenew(m, id, now).sessions);
    case Release(id) => FewerSessionsKeep(m, m.sessions - {id});
    case Expire(now) => FewerSessionsKeep(m, m.sessions - Expired(m.sessions, now));
    case UpsertGroup(group, members, saved) => UpsertKeeps(m, group, members, saved);
    case DeleteGroup(group, saved) => DeleteKeeps(m, group, saved);
    case Forget(sensor, removable, saved) =>
      CamerasKeepFrozen(m, AfterForget(m, sensor, removable, saved).inventory.cameras);
    case Enroll(sensor, camera, saved) =>
      CamerasKeepFrozen(m, AfterEnroll(m, sensor, camera, saved).inventory.cameras);
    case Move(sensor, network, saved) =>
      CamerasKeepFrozen(m, AfterMove(m, sensor, network, saved).inventory.cameras);
    case _ =>
  }

  lemma {:induction false} RunsKeepInvariant(m: Manager, events: seq<Event>)
    requires Inv(m)
    ensures Inv(Run(m, events))
    decreases events
  {
    if events != [] {
      if Enabled(m, events[0]) {
        StepKeeps(m, events[0]);
        RunsKeepInvariant(Step(m, events[0]), events[1..]);
      } else {
        RunsKeepInvariant(m, events[1..]);
      }
    }
  }

  // ---------- when a lease is granted ----------

  /** The request names cameras or groups that are there, none twice, and a sensible interval. */
  predicate WellAsked(inventory: Inventory, request: Request) {
    && (request.interval == 0 || 100 <= request.interval <= 86_400_000)
    && request.targets != []
    && (forall i, j :: 0 <= i < j < |request.targets| ==> request.targets[i] != request.targets[j])
    && ((request.kind.GroupTarget? && forall g :: g in request.targets ==> g in inventory.groups) ||
        (request.kind.SensorTarget? && forall s :: s in request.targets ==> s in inventory.cameras))
  }

  /** The camera is asked for, itself or through a group. */
  predicate AsksFor(inventory: Inventory, request: Request, s: SensorId) {
    if request.kind.GroupTarget? then
      exists g :: g in request.targets && g in inventory.groups && s in inventory.groups[g]
    else s in request.targets
  }

  /** Every lease either shares no camera with the request, or neither of the two is exclusive. */
  predicate Unrivalled(m: Manager, request: Request) {
    forall id :: id in m.sessions && (request.exclusive || m.sessions[id].request.exclusive) ==>
      forall s :: s in m.sessions[id].sensorIds ==> !AsksFor(m.inventory, request, s)
  }

  lemma TargetsAreAskedFor(inventory: Inventory, request: Request)
    requires ValidTargets(inventory, request)
    ensures forall s :: s in TargetSensors(inventory, request) <==> AsksFor(inventory, request, s)
  {
    forall s
      ensures s in TargetSensors(inventory, request) <==> AsksFor(inventory, request, s)
    {
    }
  }

  lemma UnrivalledIsAvailable(m: Manager, request: Request)
    requires ValidTargets(m.inventory, request)
    ensures Unrivalled(m, request) <==> Available(m.sessions, TargetSensors(m.inventory, request), request.exclusive)
  {
    var wanted := TargetSensors(m.inventory, request);
    TargetsAreAskedFor(m.inventory, request);
    forall id | id in m.sessions
      ensures m.sessions[id].sensorIds * wanted == {} <==>
        forall s :: s in m.sessions[id].sensorIds ==> !AsksFor(m.inventory, request, s)
    {
      if s :| s in m.sessions[id].sensorIds && AsksFor(m.inventory, request, s) {
        assert s in m.sessions[id].sensorIds * wanted;
      }
    }
  }

  /** The lease holds exactly the cameras asked for, until the time to live has passed. */
  ghost predicate HoldsAsAsked(m: Manager, session: Session, request: Request, now: real) {
    && session.request == request && session.expires == now + m.config.ttl
    && session.groupIds == (if request.kind.GroupTarget? then request.targets else [])
    && forall s :: s in session.sensorIds <==> AsksFor(m.inventory, request, s)
  }

  /** A lease is granted if and only if the request is well asked and unrivalled: leases that share cameras are
      fine as long as neither is exclusive. A refused request changes nothing. */
  lemma GrantIsExact(m: Manager, id: SessionId, request: Request, now: real)
    requires id !in m.sessions
    ensures var n := AfterAcquire(m, id, request, now);
            && (id in n.sessions <==> WellAsked(m.inventory, request) && Unrivalled(m, request))
            && (id in n.sessions ==>
                  HoldsAsAsked(m, n.sessions[id], request, now) && n == m.(sessions := m.sessions[id := n.sessions[id]]))
            && (id !in n.sessions ==> n == m)
  {
    assert WellAsked(m.inventory, request) <==> ValidInterval(request.interval) && ValidTargets(m.inventory, request);
    if ValidTargets(m.inventory, request) {
      UnrivalledIsAvailable(m, request);
      TargetsAreAskedFor(m.inventory, request);
    }
  }

  /** Releasing a lease undoes its grant. */
  lemma ReleaseUndoesAcquire(m: Manager, id: SessionId, request: Request, now: real)
    requires id !in m.sessions
    ensures Step(AfterAcquire(m, id, request, now), Release(id)) == m
  {
    if Grantable(m, request) {
      assert m.sessions[id := Granted(m, request, now)] - {id} == m.sessions;
    }
  }

  lemma ReleasedAndExpired(m: Manager, id: SessionId, released: SessionId, now: real)
    ensures id in Step(m, Release(released)).sessions <==> id in m.sessions && id != released
    ensures id in Step(m, Expire(now)).sessions <==> id in m.sessions && m.sessions[id].expires > now
  {
  }

  // ---------- when it ends ----------

  /** The lease is not renewed past `until`, and its identifier is not given out again. */
  predicate NotExtended(e: Event, id: SessionId, until: real, ttl: real) {
    (e.Renew? && e.id == id ==> e.now + ttl <= until) && (e.Acquire? ==> e.id != id)
  }

  predicate EndsBy(m: Manager, id: SessionId, until: real) {
    id in m.sessions ==> m.sessions[id].expires <= until
  }

  lemma StepEndsBy(m: Manager, e: Event, id: SessionId, until: real)
    requires EndsBy(m, id, until) && NotExtended(e, id, until, m.config.ttl)
    ensures EndsBy(Step(m, e), id, until) && Step(m, e).config == m.config
  {
  }

  lemma {:induction false} RunEndsBy(m: Manager, events: seq<Event>, id: SessionId, until: real)
    requires EndsBy(m, id, until) && forall e :: e in events ==> NotExtended(e, id, until, m.config.ttl)
    ensures EndsBy(Run(m, events), id, until)
    decreases events
  {
    if events != [] {
      assert events[0] in events && forall e :: e in events[1..] ==> e in events;
      if Enabled(m, events[0]) {
        StepEndsBy(m, events[0], id, until);
        RunEndsBy(Step(m, events[0]), events[1..], id, until);
      } else {
        RunEndsBy(m, events[1..], id, until);
      }
    }
  }

  /** Whatever happens, a lease whose time to live has passed, as last renewed, is gone after the next look at
      the clock. */
  lemma OverdueLeaseIsGone(m: Manager, events: seq<Event>, id: SessionId, until: real, now: real)
    requires EndsBy(m, id, until) && until <= now
    requires forall e :: e in events ==> NotExtended(e, id, until, m.config.ttl)
    ensures id !in Step(Run(m, events), Expire(now)).sessions
  {
    RunEndsBy(m, events, id, until);
    ReleasedAndExpired(Run(m, events), id, id, now);
  }

  // ---------- how long a lease lasts ----------

  /** Nobody releases this lease, time has not reached `until`, and a renewal only reaches further. */
  predicate Undisturbed(e: Event, id: SessionId, until: real, ttl: real) {
    && (e.Release? ==> e.id != id)
    && (e.Expire? ==> e.now < until)
    && (e.Renew? && e.id == id ==> e.now + ttl >= until)
  }

  predicate HeldUntil(m: Manager, id: SessionId, was: Session, until: real) {
    id in m.sessions && m.sessions[id] == was.(expires := m.sessions[id].expires) && m.sessions[id].expires >= until
  }

  lemma StepHolds(m: Manager, e: Event, id: SessionId, was: Session, until: real)
    requires HeldUntil(m, id, was, until) && Enabled(m, e) && Undisturbed(e, id, until, m.config.ttl)
    ensures HeldUntil(Step(m, e), id, was, until) && Step(m, e).config == m.config
  {
  }

  /** A lease that is granted or renewed at some time is held, for the same cameras, through every run in
      which it is not released and the time to live has not passed, whatever else happens. */
  lemma {:induction false} LeaseLastsItsTime(m: Manager, events: seq<Event>, id: SessionId, was: Session, until: real)
    requires HeldUntil(m, id, was, until)
    requires forall e :: e in events ==> Undisturbed(e, id, until, m.config.ttl)
    ensures HeldUntil(Run(m, events), id, was, until)
    decreases events
  {
    if events != [] {
      assert events[0] in events;
      if Enabled(m, events[0]) {
        StepHolds(m, events[0], id, was, until);
        LeaseLastsItsTime(Step(m, events[0]), events[1..], id, was, until);
      } else {
        LeaseLastsItsTime(m, events[1..], id, was, until);
      }
    }
  }

  /** From the moment of a renewal, for the same cameras. */
  lemma RenewedLeaseLasts(m: Manager, id: SessionId, now: real, events: seq<Event>)
    requires id in m.sessions
    requires forall e :: e in events ==> Undisturbed(e, id, now + m.config.ttl, m.config.ttl)
    ensures var n := Run(AfterRenew(m, id, now), events);
            && id in n.sessions && n.sessions[id] == m.sessions[id].(expires := n.sessions[id].expires)
            && n.sessions[id].expires >= now + m.config.ttl
  {
    LeaseLastsItsTime(AfterRenew(m, id, now), events, id, m.sessions[id], now + m.config.ttl);
  }

  /** From the moment of the grant. */
  lemma GrantedLeaseLasts(m: Manager, id: SessionId, request: Request, now: real, events: seq<Event>)
    requires Inv(m) && id !in m.sessions && Grantable(m, request)
    requires forall e :: e in events ==> Undisturbed(e, id, now + m.config.ttl, m.config.ttl)
    ensures var n := Run(AfterAcquire(m, id, request, now), events);
            && id in n.sessions && n.sessions[id].request == request
            && n.sessions[id].sensorIds == TargetSensors(m.inventory, request)
            && (forall s :: s in n.sessions[id].sensorIds ==> Leased(n.sessions, s))
  {
    LeaseLastsItsTime(AfterAcquire(m, id, request, now), events, id, Granted(m, request, now), now + m.config.ttl);
  }
}
