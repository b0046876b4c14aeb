/** What each operation of the registry does to the inventory: exactly when it succeeds, what is then different,
    and that nothing is different otherwise. */
module InventoryEffects {

  import opened HardwareIdentity
  import opened Inventories
  import opened InventoryRoundTrips
  import opened Optional

  // ---------- what validation asks, camera by camera ----------

  /** A camera without a network, or an address in the subnet that is not the host's and that no other camera has. */
  predicate PlaceFree(inv: Inventory, machine: Machine, network: string, address: int, except: string) {
    network == "" ||
    (&& network in machine && machine[network].subnetFirst <= address <= machine[network].subnetLast
     && address != machine[network].host
     && forall j :: j in inv.sensors && j != except ==>
          !(inv.sensors[j].network == network && inv.sensors[j].address == address))
  }

  predicate KeyFree(inv: Inventory, h: Hardware, except: string) {
    forall j :: j in inv.sensors && j != except ==> KeyOf(inv.sensors[j].hardware) != KeyOf(h)
  }

  /** All other cameras are as they were. */
  ghost predicate SameSensorsBut(inv: Inventory, n: Inventory, id: string) {
    forall x :: x != id ==> (x in n.sensors <==> x in inv.sensors) && (x in inv.sensors ==> n.sensors[x] == inv.sensors[x])
  }

  predicate Settled(inv: Inventory, machine: Machine) {
    Consistent(inv, machine) && Valid(inv, machine)
  }

  lemma MarkedSame(inv: Inventory, sensors: map<string, Sensor>)
    requires StatesMatch(inv) && sensors.Keys == inv.sensors.Keys
    ensures Marked(inv.known, sensors) == inv.known
  {
    assert forall i :: 0 <= i < |inv.known| ==> (inv.known[i].id in sensors <==> inv.known[i].id in inv.sensors);
  }

  lemma KeyFits(inv: Inventory, id: string, s: Sensor)
    requires DistinctKeys(inv.sensors)
    ensures DistinctKeys(inv.sensors[id := s]) <==> KeyFree(inv, s.hardware, id)
  {
    var after := inv.sensors[id := s];
    forall j | j in inv.sensors && j != id
      ensures after[j] == inv.sensors[j]
    {
    }
    if DistinctKeys(after) {
      forall j | j in inv.sensors && j != id
        ensures KeyOf(inv.sensors[j].hardware) != KeyOf(s.hardware)
      {
        assert KeyOf(after[j].hardware) != KeyOf(after[id].hardware);
      }
    }
  }

  lemma PlaceFits(inv: Inventory, machine: Machine, id: string, s: Sensor)
    requires DistinctPlaces(inv.sensors, machine)
    ensures DistinctPlaces(inv.sensors[id := s], machine) <==> PlaceFree(inv, machine, s.network, s.address, id)
  {
    var after := inv.sensors[id := s];
    forall j | j in inv.sensors && j != id
      ensures after[j] == inv.sensors[j]
    {
    }
    if DistinctPlaces(after, machine) {
      assert Placed(after[id], machine);
      forall j | j in inv.sensors && j != id
        ensures !SamePlace(s, inv.sensors[j])
      {
        assert !SamePlace(after[id], after[j]);
      }
    }
  }

  /** One camera more, or another in its place, fits exactly when it is named and its key and place are free. */
  lemma OneMoreFits(inv: Inventory, machine: Machine, id: string, s: Sensor)
    requires ValidSensors(inv.sensors, machine) && RosSafe(id)
    ensures ValidSensors(inv.sensors[id := s], machine) <==>
      Named(s.hardware) && KeyFree(inv, s.hardware, id) && PlaceFree(inv, machine, s.network, s.address, id)
  {
    KeyFits(inv, id, s);
    PlaceFits(inv, machine, id, s);
    assert inv.sensors[id := s][id] == s;
  }

  // ---------- moving and relabelling ----------

  /** Only the cameras' own details differ. */
  lemma SameNamesStayValid(inv: Inventory, draft: Inventory, machine: Machine)
    requires Valid(inv, machine) && draft == inv.(sensors := draft.sensors) && draft.sensors.Keys == inv.sensors.Keys
    ensures Valid(draft, machine) <==> ValidSensors(draft.sensors, machine)
  {
    forall id | id in inv.groups
      ensures ValidGroup(id, inv.groups[id], draft.sensors)
    {
      assert ValidGroup(id, inv.groups[id], inv.sensors);
      assert forall m :: m in inv.sensors ==> m in draft.sensors;
    }
  }

  /** Saving other details of an enrolled camera: they stay if they fit. */
  lemma EditsWhenItFits(inv: Inventory, machine: Machine, id: string, s: Sensor, written: bool)
    requires Settled(inv, machine) && id in inv.sensors && s.hardware == inv.sensors[id].hardware
    ensures var d := inv.(sensors := inv.sensors[id := s]);
            Saved(d, inv, machine, written) ==
              if written && PlaceFree(inv, machine, s.network, s.address, id) then d else inv
  {
    OneMoreFits(inv, machine, id, s);
    ItselfFits(inv, machine, id);
    SameNamesStayValid(inv, inv.(sensors := inv.sensors[id := s]), machine);
    MarkedSame(inv, inv.sensors[id := s]);
  }

  /** A move succeeds exactly for an enrolled camera, a free place and a written save. The camera then has that
      network and address, and is the same hardware; nothing else changes. */
  lemma MoveIsExact(inv: Inventory, machine: Machine, id: string, network: string, address: int, written: bool)
    requires Settled(inv, machine)
    ensures var n := AfterMove(inv, machine, id, network, address, written);
            if written && id in inv.sensors && PlaceFree(inv, machine, network, address, id) then
              && id in n.sensors && n.sensors[id].network == network && n.sensors[id].address == address
              && n.sensors[id].location == "unknown" && n.sensors[id].hardware == inv.sensors[id].hardware
              && SameSensorsBut(inv, n, id)
              && n.known == inv.known && n.groups == inv.groups && n.portModes == inv.portModes
            else n == inv
  {
    if id in inv.sensors {
      var s := inv.sensors[id].(network := network, address := address, location := "unknown");
      EditsWhenItFits(inv, machine, id, s, written);
    }
  }

  /** A new label is taken for every enrolled camera when the save is written, and changes only the label. */
  lemma RelabelIsExact(inv: Inventory, machine: Machine, id: string, location: string, written: bool)
    requires Settled(inv, machine)
    ensures var n := AfterRelabel(inv, machine, id, location, written);
            if written && id in inv.sensors then
              && id in n.sensors && n.sensors[id] == inv.sensors[id].(location := location)
              && SameSensorsBut(inv, n, id)
              && n.known == inv.known && n.groups == inv.groups && n.portModes == inv.portModes
            else n == inv
  {
    if id in inv.sensors {
      var s := inv.sensors[id].(location := location);
      EditsWhenItFits(inv, machine, id, s, written);
      ItselfFits(inv, machine, id);
    }
  }

  lemma ItselfFits(inv: Inventory, machine: Machine, id: string)
    requires ValidSensors(inv.sensors, machine) && id in inv.sensors
    ensures var s := inv.sensors[id];
            Named(s.hardware) && KeyFree(inv, s.hardware, id) && PlaceFree(inv, machine, s.network, s.address, id)
  {
    OneMoreFits(inv, machine, id, inv.sensors[id]);
    assert inv.sensors[id := inv.sensors[id]] == inv.sensors;
  }

  // ---------- the catalogue ----------

  /** The hardware an entry has after it has been refreshed or added. */
  function Booked(known: seq<Entry>, id: string, o: Hardware): Hardware {
    var at := Find(known, id);
    if at.None? then o
    else
      var h := known[at.value].hardware;
      Hardware(h.provider, Fresher(o.kind, h.kind), Fresher(o.vendor, h.vendor), Fresher(o.model, h.model),
               Fresher(o.serial, h.serial), Fresher(o.mac, h.mac))
  }

  /** The entry is named and shares its driver and serial number with no other. */
  predicate StaysUnique(known: seq<Entry>, id: string, o: Hardware) {
    var h := Booked(known, id, o);
    Named(h) &&
    forall e :: e in known && e.id != id ==> !(e.hardware.provider == h.provider && e.hardware.serial == h.serial)
  }

  lemma SetEntryIs(known: seq<Entry>, id: string, o: Hardware, state: State)
    requires Catalogued(known)
    ensures SetEntry(known, id, o, state) ==
      if Has(known, id) then known[Find(known, id).value := Entry(id, Booked(known, id, o), state)]
      else known + [Entry(id, o, state)]
  {
    EnsuredAt(known, id, o);
  }

  /** A catalogue in which one entry is new or has been replaced. */
  predicate DiffersAt(known: seq<Entry>, after: seq<Entry>, i: nat) {
    && i < |after| && |known| <= |after| && (i < |known| ==> |after| == |known|) && |after| <= |known| + 1
    && forall k :: 0 <= k < |after| && k != i ==> k < |known| && after[k] == known[k]
  }

  predicate ClashesBut(known: seq<Entry>, i: nat, h: Hardware) {
    exists k :: 0 <= k < |known| && k != i && Clash(known[k].hardware, h)
  }

  lemma OneEntryValid(known: seq<Entry>, after: seq<Entry>, i: nat)
    requires ValidKnown(known) && DiffersAt(known, after, i) && RosSafe(after[i].id)
    ensures ValidKnown(after) <==> Named(after[i].hardware) && !ClashesBut(known, i, after[i].hardware)
  {
    if ValidKnown(after) {
      forall k | 0 <= k < |known| && k != i
        ensures !Clash(known[k].hardware, after[i].hardware)
      {
        assert after[k] == known[k];
        assert if k < i then !Clash(after[k].hardware, after[i].hardware) else !Clash(after[i].hardware, after[k].hardware);
      }
    }
  }

  /** The place of a name is the only place of that name. */
  lemma OthersByName(known: seq<Entry>, id: string, h: Hardware)
    requires Catalogued(known)
    ensures ClashesBut(known, PlaceOf(known, id), h) <==> exists e :: e in known && e.id != id && Clash(e.hardware, h)
  {
    forall k | 0 <= k < |known| && k != PlaceOf(known, id)
      ensures known[k] in known && known[k].id != id
    {
      if known[k].id == id {
        FindIs(known, k);
      }
    }
    if e :| e in known && e.id != id && Clash(e.hardware, h) {
      var k :| 0 <= k < |known| && known[k] == e;
    }
  }

  lemma SetEntryDiffers(known: seq<Entry>, id: string, o: Hardware, state: State)
    requires Catalogued(known)
    ensures var after := SetEntry(known, id, o, state); var i := PlaceOf(known, id);
            DiffersAt(known, after, i) && after[i] == Entry(id, Booked(known, id, o), state)
  {
    SetEntryIs(known, id, o, state);
  }

  lemma SetEntryValid(known: seq<Entry>, id: string, o: Hardware, state: State)
    requires Catalogued(known) && ValidKnown(known) && RosSafe(id)
    ensures ValidKnown(SetEntry(known, id, o, state)) <==> StaysUnique(known, id, o)
  {
    SetEntryDiffers(known, id, o, state);
    OneEntryValid(known, SetEntry(known, id, o, state), PlaceOf(known, id));
    OthersByName(known, id, Booked(known, id, o));
  }

  lemma HasIs(known: seq<Entry>, x: string)
    ensures Has(known, x) <==> exists k :: 0 <= k < |known| && known[k].id == x
  {
    if k :| 0 <= k < |known| && known[k].id == x {
      assert known[k] in known;
    }
  }

  lemma DiffersHas(known: seq<Entry>, after: seq<Entry>, i: nat, x: string)
    requires DiffersAt(known, after, i) && (i < |known| ==> known[i].id == after[i].id)
    ensures Has(after, x) <==> x == after[i].id || Has(known, x)
  {
    HasIs(known, x);
    HasIs(after, x);
    if k :| 0 <= k < |known| && known[k].id == x {
      assert after[k].id == x;
    }
  }

  lemma SetEntryCovers(known: seq<Entry>, id: string, o: Hardware, state: State, x: string)
    requires Catalogued(known)
    ensures Has(SetEntry(known, id, o, state), x) <==> x == id || Has(known, x)
  {
    SetEntryDiffers(known, id, o, state);
    DiffersHas(known, SetEntry(known, id, o, state), PlaceOf(known, id), x);
  }

  /** A sighting refreshes the entry it is booked on with whatever it reports, all but the driver and the serial
      number, or adds an entry; the others stay. The entry is marked enrolled exactly when its camera is, and
      keeps its state otherwise. */
  lemma RecordIsExact(inv: Inventory, o: Hardware)
    requires Catalogued(inv.known) && StatesMatch(inv)
    ensures var id := SensorIdFor(inv.known, o); var n := AfterRecord(inv, o); var at := Find(inv.known, id);
            && n == inv.(known := n.known)
            && |n.known| == |inv.known| + (if at.None? then 1 else 0)
            && (at.None? ==> n.known[|inv.known|] == Entry(id, o, if id in inv.sensors then Enrolled else Observed))
            && (at.Some? ==>
                  var e := inv.known[at.value];
                  n.known[at.value] == e.(hardware := Booked(inv.known, id, o).(serial := e.hardware.serial)))
            && (forall k :: 0 <= k < |inv.known| && at != Some(k) ==> n.known[k] == inv.known[k])
  {
  }

  // ---------- enrolling ----------

  predicate IsRetired(inv: Inventory, id: string) {
    exists e :: e in inv.known && e.id == id && e.state == Retired
  }

  lemma RetiredIs(known: seq<Entry>, id: string)
    requires Catalogued(known)
    ensures Has(known, id) && StateOf(known, id) == Retired <==>
      exists e :: e in known && e.id == id && e.state == Retired
  {
    if e :| e in known && e.id == id && e.state == Retired {
      var k :| 0 <= k < |known| && known[k] == e;
      FindIs(known, k);
    }
  }

  predicate CanEnroll(inv: Inventory, machine: Machine, id: string, o: Hardware, network: string, address: int) {
    && id !in inv.sensors && !IsRetired(inv, id) && Named(o)
    && KeyFree(inv, o, id) && PlaceFree(inv, machine, network, address, id) && StaysUnique(inv.known, id, o)
  }

  lemma EnrollDraftIsValid(inv: Inventory, machine: Machine, id: string, s: Sensor)
    requires Settled(inv, machine) && id !in inv.sensors && RosSafe(id)
    ensures var d := inv.(sensors := inv.sensors[id := s], known := SetEntry(inv.known, id, s.hardware, Enrolled));
            Valid(d, machine) <==>
              && Named(s.hardware) && KeyFree(inv, s.hardware, id)
              && PlaceFree(inv, machine, s.network, s.address, id) && StaysUnique(inv.known, id, s.hardware)
  {
    OneMoreFits(inv, machine, id, s);
    SetEntryValid(inv.known, id, s.hardware, Enrolled);
    SetEntryKeepsCover(inv.known, id, s.hardware, Enrolled, inv.sensors[id := s]);
    assert forall g :: g in inv.groups ==> ValidGroup(g, inv.groups[g], inv.sensors);
    GroupsStayValid(inv.groups, inv.sensors, inv.sensors[id := s]);
  }

  lemma GroupsStayValid(groups: map<string, Group>, sensors: map<string, Sensor>, after: map<string, Sensor>)
    requires ValidGroups(groups, sensors)
    requires forall g, m :: g in groups && m in groups[g].members ==> m in after
    ensures ValidGroups(groups, after)
  {
    forall g | g in groups
      ensures ValidGroup(g, groups[g], after)
    {
      assert ValidGroup(g, groups[g], sensors);
    }
  }

  lemma EnrolledEntry(draft: Inventory, id: string, o: Hardware, known: seq<Entry>)
    requires Catalogued(known) && draft.known == SetEntry(known, id, o, Enrolled)
    ensures var n := Normalized(draft);
            Has(n.known, id) && StateOf(n.known, id) == Enrolled
            && n.known[Find(n.known, id).value].hardware == Booked(known, id, o)
  {
    SetEntryIs(known, id, o, Enrolled);
    EntryAt(known, id, o, Enrolled);
    FindKept(draft.known, Normalized(draft).known, id);
  }

  lemma EnrollsWhenItCan(inv: Inventory, machine: Machine, id: string, o: Hardware, network: string, address: int,
                         location: string, written: bool)
    requires Settled(inv, machine) && id !in inv.sensors && !IsRetired(inv, id) && RosSafe(id)
    ensures var d := EnrollDraft(inv, id, o, network, address, location);
            Saved(d, inv, machine, written) ==
              if written && CanEnroll(inv, machine, id, o, network, address) then Normalized(d) else inv
  {
    EnrollDraftIsValid(inv, machine, id, Sensor(o, network, address, if location != "" then location else "unknown"));
  }

  /** An enrolment succeeds exactly for a camera that is not enrolled and not retired, is named, whose key and
      place are free, whose entry stays unique, and a written save. The camera then has the observed hardware,
      the place and the label; nothing but the catalogue changes besides. A retired camera has its entry
      refreshed; in every other case nothing changes. */
  lemma EnrollIsExact(inv: Inventory, machine: Machine, o: Hardware, network: string, address: int, location: string,
                      written: bool)
    requires Settled(inv, machine)
    ensures var id := SensorIdFor(inv.known, o);
            var n := AfterEnroll(inv, machine, o, network, address, location, written);
            if written && CanEnroll(inv, machine, id, o, network, address) then
              && id in n.sensors
              && n.sensors[id] == Sensor(o, network, address, if location == "" then "unknown" else location)
              && SameSensorsBut(inv, n, id) && n.groups == inv.groups && n.portModes == inv.portModes
              && Has(n.known, id) && StateOf(n.known, id) == Enrolled
              && n.known[Find(n.known, id).value].hardware == Booked(inv.known, id, o)
            else if id !in inv.sensors && IsRetired(inv, id) then n == inv.(known := n.known)
            else n == inv
  {
    var id := SensorIdFor(inv.known, o);
    ResolvedIdIsRosSafe(inv.known, o);
    RetiredIs(inv.known, id);
    if id !in inv.sensors && !IsRetired(inv, id) {
      EnrollsWhenItCan(inv, machine, id, o, network, address, location, written);
      EnrolledEntry(EnrollDraft(inv, id, o, network, address, location), id, o, inv.known);
    }
  }

  // ---------- archiving, purging ----------

  predicate InAnyGroup(inv: Inventory, id: string) {
    exists g :: g in inv.groups && id in inv.groups[g].members
  }

  lemma FewerAreValid(inv: Inventory, machine: Machine, id: string)
    requires ValidSensors(inv.sensors, machine)
    ensures ValidSensors(inv.sensors - {id}, machine)
  {
  }

  lemma UngroupedStaysValid(inv: Inventory, id: string)
    requires ValidGroups(inv.groups, inv.sensors) && !InAnyGroup(inv, id)
    ensures ValidGroups(inv.groups, inv.sensors - {id})
  {
    forall g, m | g in inv.groups && m in inv.groups[g].members
      ensures m in inv.sensors - {id}
    {
      assert ValidGroup(g, inv.groups[g], inv.sensors);
    }
    GroupsStayValid(inv.groups, inv.sensors, inv.sensors - {id});
  }

  lemma SetEntryKeepsCover(known: seq<Entry>, id: string, o: Hardware, state: State, sensors: map<string, Sensor>)
    requires Catalogued(known) && forall x :: x in sensors && x != id ==> Has(known, x)
    ensures Covered(sensors, SetEntry(known, id, o, state))
  {
    forall x | x in sensors
      ensures Has(SetEntry(known, id, o, state), x)
    {
      SetEntryCovers(known, id, o, state, x);
    }
  }

  lemma ForgetDraftIsValid(inv: Inventory, machine: Machine, id: string)
    requires Settled(inv, machine) && id in inv.sensors && !InAnyGroup(inv, id)
    ensures Valid(ForgetDraft(inv, id), machine) <==> StaysUnique(inv.known, id, inv.sensors[id].hardware)
  {
    SetEntryValid(inv.known, id, inv.sensors[id].hardware, Archived);
    FewerAreValid(inv, machine, id);
    UngroupedStaysValid(inv, id);
    SetEntryKeepsCover(inv.known, id, inv.sensors[id].hardware, Archived, inv.sensors - {id});
  }

  lemma ArchivedDraftEntry(inv: Inventory, id: string)
    requires Catalogued(inv.known) && id in inv.sensors
    ensures var n := Normalized(ForgetDraft(inv, id)); Has(n.known, id) && StateOf(n.known, id) == Archived
  {
    EntryAt(inv.known, id, inv.sensors[id].hardware, Archived);
    FindKept(ForgetDraft(inv, id).known, Normalized(ForgetDraft(inv, id)).known, id);
  }

  lemma ForgetsWhenItCan(inv: Inventory, machine: Machine, id: string, written: bool)
    requires Settled(inv, machine) && id in inv.sensors && !InAnyGroup(inv, id)
    ensures AfterForget(inv, machine, id, written) ==
      if written && StaysUnique(inv.known, id, inv.sensors[id].hardware) then Normalized(ForgetDraft(inv, id)) else inv
  {
    ForgetDraftIsValid(inv, machine, id);
  }

  /** Archiving succeeds exactly for an enrolled camera in no group, whose entry stays unique, and a written save.
      The camera is then gone and its entry archived; nothing else changes. */
  lemma ForgetIsExact(inv: Inventory, machine: Machine, id: string, written: bool)
    requires Settled(inv, machine)
    ensures var n := AfterForget(inv, machine, id, written);
            if written && id in inv.sensors && !InAnyGroup(inv, id) && StaysUnique(inv.known, id, inv.sensors[id].hardware)
            then
              && id !in n.sensors && SameSensorsBut(inv, n, id) && n.groups == inv.groups && n.portModes == inv.portModes
              && Has(n.known, id) && StateOf(n.known, id) == Archived
            else n == inv
  {
    if id in inv.sensors && !InAnyGroup(inv, id) {
      ForgetsWhenItCan(inv, machine, id, written);
      ArchivedDraftEntry(inv, id);
    }
  }

  lemma FewerEntriesValid(known: seq<Entry>, id: string)
    requires ValidKnown(known)
    ensures ValidKnown(Without(known, id))
  {
  }

  lemma EnrolledStayCovered(known: seq<Entry>, id: string, sensors: map<string, Sensor>)
    requires Catalogued(known) && Has(known, id) && Covered(sensors, known) && id !in sensors
    ensures Covered(sensors, Without(known, id))
  {
    WithoutForgets(known, id);
    forall x | x in sensors
      ensures Has(Without(known, id), x)
    {
      assert known[Find(known, x).value] in Without(known, id);
    }
  }

  lemma PurgeDraftIsValid(inv: Inventory, machine: Machine, id: string)
    requires Settled(inv, machine) && id !in inv.sensors && Has(inv.known, id)
    ensures Valid(inv.(known := Without(inv.known, id)), machine)
  {
    FewerEntriesValid(inv.known, id);
    EnrolledStayCovered(inv.known, id, inv.sensors);
  }

  /** Purging succeeds exactly for a camera that is in the catalogue but not enrolled, and a written save; its
      entry is then gone, and nothing else. */
  lemma PurgeIsExact(inv: Inventory, machine: Machine, id: string, written: bool)
    requires Settled(inv, machine)
    ensures var n := AfterPurge(inv, machine, id, written);
            if written && id !in inv.sensors && Has(inv.known, id) then
              && n == inv.(known := n.known) && (forall e :: e in n.known <==> e in inv.known && e.id != id)
            else n == inv
  {
    if id !in inv.sensors && Has(inv.known, id) {
      var left := Without(inv.known, id);
      PurgeDraftIsValid(inv, machine, id);
      WithoutForgets(inv.known, id);
      WithoutStates(inv, id);
      MarkingUnenrolled(left, inv.sensors);
      forall e | e in left
        ensures e in inv.known
      {
      }
    }
  }

  // ---------- groups and port modes ----------

  /** A group is stored exactly when its name is safe, it names a provider, distinct enrolled members, a known policy and
      a preview rate up to ten a second, and the save is written. */
  lemma UpsertGroupIsExact(inv: Inventory, machine: Machine, id: string, group: Group, written: bool)
    requires Settled(inv, machine)
    ensures var n := AfterUpsertGroup(inv, machine, id, group, written);
            var proper :=
              && RosSafe(id) && group.provider != "" && group.members != []
              && (group.policy == "strict" || group.policy == "degraded") && 0.0 < group.previewRate <= 10.0
              && (forall i, j :: 0 <= i < j < |group.members| ==> group.members[i] != group.members[j])
              && (forall m :: m in group.members ==> m in inv.sensors);
            if written && proper then n == inv.(groups := inv.groups[id := group]) else n == inv
  {
    var d := inv.(groups := inv.groups[id := group]);
    assert ValidGroups(d.groups, inv.sensors) <==> ValidGroup(id, group, inv.sensors) by {
      assert forall g :: g in d.groups && g != id ==> g in inv.groups && ValidGroup(g, inv.groups[g], inv.sensors);
      assert d.groups[id] == group;
    }
    MarkedSame(inv, inv.sensors);
  }

  lemma DeleteGroupIsExact(inv: Inventory, machine: Machine, id: string, written: bool)
    requires Settled(inv, machine)
    ensures var n := AfterDeleteGroup(inv, machine, id, written);
            if written && id in inv.groups then n == inv.(groups := inv.groups - {id}) else n == inv
  {
    MarkedSame(inv, inv.sensors);
  }

  predicate Shared(inv: Inventory, network: string) {
    exists i, j :: i in inv.sensors && j in inv.sensors && i != j
                   && inv.sensors[i].network == network && inv.sensors[j].network == network
  }

  lemma SharedIsSeveral(inv: Inventory, network: string)
    ensures |OnNetwork(inv, network)| > 1 <==> Shared(inv, network)
  {
    var on := OnNetwork(inv, network);
    if Shared(inv, network) {
      var i, j :| i in inv.sensors && j in inv.sensors && i != j
                  && inv.sensors[i].network == network && inv.sensors[j].network == network;
      assert {i, j} <= on;
      SubsetIsSmaller({i, j}, on);
    }
    if |on| > 1 {
      var i :| i in on;
      var rest := on - {i};
      assert |rest| >= 1;
      var j :| j in rest;
      assert i != j && j in on;
    }
  }

  lemma {:induction false} SubsetIsSmaller(a: set<string>, b: set<string>)
    requires a <= b
    ensures |a| <= |b|
  {
    if a != {} {
      var x :| x in a;
      SubsetIsSmaller(a - {x}, b - {x});
    }
  }

  /** A port mode is set exactly for a known network, for direct mode one that at most one camera is on, and a
      written save. */
  lemma SetPortModeIsExact(inv: Inventory, machine: Machine, network: string, direct: bool, written: bool)
    requires Settled(inv, machine)
    ensures var n := AfterSetPortMode(inv, machine, network, direct, written);
            if written && network in machine && (direct ==> !Shared(inv, network)) then
              n == inv.(portModes := inv.portModes[network := direct])
            else n == inv
  {
    SharedIsSeveral(inv, network);
    MarkedSame(inv, inv.sensors);
  }

  // ---------- replacing ----------

  /** Both entries are named, and share driver and serial number with no entry, nor with each other. */
  predicate BothStayUnique(known: seq<Entry>, id: string, o: Hardware, source: string, was: Hardware) {
    var h, g := Booked(known, id, o), Booked(known, source, was);
    && Named(h) && Named(g) && !Clash(h, g)
    && forall e :: e in known && e.id != id && e.id != source ==> !Clash(e.hardware, h) && !Clash(e.hardware, g)
  }

  predicate CanReplace(inv: Inventory, source: string, id: string, o: Hardware) {
    && source in inv.sensors && id !in inv.sensors && Named(o) && KeyFree(inv, o, source)
    && BothStayUnique(inv.known, id, o, source, inv.sensors[source].hardware)
  }

  lemma SwappedFits(inv: Inventory, machine: Machine, source: string, id: string, o: Hardware)
    requires ValidSensors(inv.sensors, machine) && source in inv.sensors && id !in inv.sensors && RosSafe(id)
    ensures ValidSensors((inv.sensors - {source})[id := inv.sensors[source].(hardware := o)], machine) <==>
      Named(o) && KeyFree(inv, o, source)
  {
    var rest := inv.(sensors := inv.sensors - {source});
    var was := inv.sensors[source];
    OneMoreFits(rest, machine, id, was.(hardware := o));
    FewerAreValid(inv, machine, source);
    ItselfFits(inv, machine, source);
    RestIsFree(inv, machine, source, id, o);
  }

  /** What is free but for one camera is free without it. */
  lemma RestIsFree(inv: Inventory, machine: Machine, source: string, id: string, o: Hardware)
    requires source in inv.sensors && id !in inv.sensors
    ensures var rest := inv.(sensors := inv.sensors - {source}); var was := inv.sensors[source];
            && (KeyFree(inv, o, source) <==> KeyFree(rest, o, id))
            && (PlaceFree(inv, machine, was.network, was.address, source) ==>
                  PlaceFree(rest, machine, was.network, was.address, id))
  {
    var rest := inv.sensors - {source};
    assert forall j :: j in inv.sensors && j != source ==> j in rest && rest[j] == inv.sensors[j];
  }

  /** The catalogue after two entries have been set: first one, then the other. */
  lemma TwoEntriesDiffer(known: seq<Entry>, id: string, o: Hardware, source: string, was: Hardware)
    requires Catalogued(known) && id != source && Has(known, source)
    ensures var one := SetEntry(known, id, o, Enrolled); var both := SetEntry(one, source, was, Retired);
            var i, j := PlaceOf(known, id), Find(known, source).value;
            && Catalogued(one) && i != j && j < |known|
            && DiffersAt(known, one, i) && one[i] == Entry(id, Booked(known, id, o), Enrolled)
            && DiffersAt(one, both, j) && both[j] == Entry(source, Booked(known, source, was), Retired)
            && |both| == |one| && one[j] == known[j] && known[j].id == source
  {
    var one := SetEntry(known, id, o, Enrolled);
    SetEntryKeeps(known, id, o, Enrolled);
    SetEntryDiffers(known, id, o, Enrolled);
    FindIs(one, Find(known, source).value);
    SetEntryDiffers(one, source, was, Retired);
  }

  lemma TwoPlacesValid(known: seq<Entry>, one: seq<Entry>, both: seq<Entry>, i: nat, j: nat)
    requires ValidKnown(known) && DiffersAt(known, one, i) && DiffersAt(one, both, j) && i != j
    requires j < |known| && |both| == |one| && RosSafe(one[i].id) && RosSafe(both[j].id)
    ensures ValidKnown(both) <==>
      && Named(one[i].hardware) && Named(both[j].hardware) && !Clash(one[i].hardware, both[j].hardware)
      && forall k :: 0 <= k < |known| && k != i && k != j ==>
           !Clash(known[k].hardware, one[i].hardware) && !Clash(known[k].hardware, both[j].hardware)
  {
    forall k | 0 <= k < |both|
      ensures both[k] == if k == j then both[j] else if k == i then one[i] else known[k]
    {
    }
    if ValidKnown(both) {
      assert both[i] == one[i];
      assert forall a, b :: 0 <= a < |both| && 0 <= b < |both| && a != b ==> !Clash(both[a].hardware, both[b].hardware);
      forall k | 0 <= k < |known| && k != i && k != j
        ensures !Clash(known[k].hardware, one[i].hardware) && !Clash(known[k].hardware, both[j].hardware)
      {
        assert both[k] == known[k];
      }
    }
  }

  lemma OthersByTwoNames(known: seq<Entry>, id: string, source: string, h: Hardware, g: Hardware)
    requires Catalogued(known) && Has(known, source)
    ensures (forall k :: 0 <= k < |known| && k != PlaceOf(known, id) && k != Find(known, source).value ==>
               !Clash(known[k].hardware, h) && !Clash(known[k].hardware, g)) <==>
            forall e :: e in known && e.id != id && e.id != source ==> !Clash(e.hardware, h) && !Clash(e.hardware, g)
  {
    forall k | 0 <= k < |known|
      ensures known[k] in known
      ensures k == PlaceOf(known, id) <==> known[k].id == id
      ensures k == Find(known, source).value <==> known[k].id == source
    {
      FindIs(known, k);
    }
  }

  lemma TwoEntriesValid(known: seq<Entry>, id: string, o: Hardware, source: string, was: Hardware)
    requires Catalogued(known) && ValidKnown(known) && id != source && Has(known, source) && RosSafe(id)
    ensures ValidKnown(SetEntry(SetEntry(known, id, o, Enrolled), source, was, Retired)) <==>
      BothStayUnique(known, id, o, source, was)
  {
    var one := SetEntry(known, id, o, Enrolled);
    TwoEntriesDiffer(known, id, o, source, was);
    TwoPlacesValid(known, one, SetEntry(one, source, was, Retired), PlaceOf(known, id), Find(known, source).value);
    OthersByTwoNames(known, id, source, Booked(known, id, o), Booked(known, source, was));
  }

  lemma ReplaceDraftCovers(inv: Inventory, source: string, id: string, o: Hardware)
    requires Catalogued(inv.known) && Covered(inv.sensors, inv.known) && source in inv.sensors
    ensures Covered(ReplaceDraft(inv, source, id, o).sensors, ReplaceDraft(inv, source, id, o).known)
  {
    var d := ReplaceDraft(inv, source, id, o);
    var one := SetEntry(inv.known, id, o, Enrolled);
    SetEntryKeeps(inv.known, id, o, Enrolled);
    forall x | x in d.sensors
      ensures Has(one, x)
    {
      SetEntryCovers(inv.known, id, o, Enrolled, x);
    }
    SetEntryKeepsCover(one, source, inv.sensors[source].hardware, Retired, d.sensors);
  }

  lemma ReplaceDraftIsValid(inv: Inventory, machine: Machine, source: string, id: string, o: Hardware)
    requires Settled(inv, machine) && source in inv.sensors && id !in inv.sensors && RosSafe(id)
    ensures Valid(ReplaceDraft(inv, source, id, o), machine) <==> CanReplace(inv, source, id, o)
  {
    SwappedFits(inv, machine, source, id, o);
    TwoEntriesValid(inv.known, id, o, source, inv.sensors[source].hardware);
    ReplaceKeepsGroups(inv, machine, source, id, o);
    ReplaceDraftCovers(inv, source, id, o);
  }

  /** The groups of a replacement: its predecessor's place, in order, in every group. */
  ghost predicate TakesPlace(groups: map<string, Group>, after: map<string, Group>, source: string, id: string) {
    && after.Keys == groups.Keys
    && (forall g :: g in groups ==> after[g].(members := groups[g].members) == groups[g])
    && (forall g :: g in groups ==> |after[g].members| == |groups[g].members|)
    && (forall g, i :: g in groups && 0 <= i < |groups[g].members| ==>
          after[g].members[i] == if groups[g].members[i] == source then id else groups[g].members[i])
  }

  lemma RenamedTakesPlace(groups: map<string, Group>, source: string, id: string)
    ensures TakesPlace(groups, RenamedGroups(groups, source, id), source, id)
  {
  }

  /** One camera has taken the other's network, address and label, and its place in the groups. */
  ghost predicate Swaps(inv: Inventory, n: Inventory, source: string, id: string, o: Hardware)
    requires source in inv.sensors
  {
    && source !in n.sensors && id in n.sensors && n.sensors[id] == inv.sensors[source].(hardware := o)
    && (forall x :: x != id && x != source ==>
          (x in n.sensors <==> x in inv.sensors) && (x in inv.sensors ==> n.sensors[x] == inv.sensors[x]))
    && n.portModes == inv.portModes && TakesPlace(inv.groups, n.groups, source, id)
  }

  lemma ReplaceDraftSwaps(inv: Inventory, source: string, id: string, o: Hardware)
    requires source in inv.sensors && id !in inv.sensors
    ensures Swaps(inv, Normalized(ReplaceDraft(inv, source, id, o)), source, id, o)
  {
    RenamedTakesPlace(inv.groups, source, id);
  }

  lemma ReplacesWhenItCan(inv: Inventory, machine: Machine, source: string, o: Hardware, written: bool)
    requires Settled(inv, machine) && source in inv.sensors && NewSensorId(o) !in inv.sensors
    ensures AfterReplace(inv, machine, source, o, written) ==
      if written && CanReplace(inv, source, NewSensorId(o), o) then Normalized(ReplaceDraft(inv, source, NewSensorId(o), o))
      else inv
  {
    StableIdIsRosSafe(o.provider, o.serial);
    StableIdIsRosSafe("camera_" + o.vendor, o.serial);
    ReplaceDraftIsValid(inv, machine, source, NewSensorId(o), o);
  }

  /** A replacement succeeds exactly when the old camera is enrolled and the new name is not, the new camera is
      named and its key is free but for the old one's, both entries stay unique, and the save is written. The
      new camera then has the old one's network, address and label, and takes its place, in order, in every
      group; otherwise nothing changes. */
  lemma ReplaceIsExact(inv: Inventory, machine: Machine, source: string, o: Hardware, written: bool)
    requires Settled(inv, machine)
    ensures var id := NewSensorId(o); var n := AfterReplace(inv, machine, source, o, written);
            if written && CanReplace(inv, source, id, o) then Swaps(inv, n, source, id, o) else n == inv
  {
    if source in inv.sensors && NewSensorId(o) !in inv.sensors {
      ReplacesWhenItCan(inv, machine, source, o, written);
      ReplaceDraftSwaps(inv, source, NewSensorId(o), o);
    }
  }

  // ---------- what the inventory promises, spelled out ----------

  /** After every sequence of operations from a consistent inventory: each camera has a safe name and named
      hardware, a placed camera's address lies in its subnet and is not the host's, no two cameras share an
      address or a hardware key, groups list distinct enrolled cameras, and the catalogue has an entry for every
      enrolled camera, and calls enrolled exactly those. */
  lemma InventoryGuarantees(inv: Inventory, machine: Machine, events: seq<(Event, bool)>)
    requires Consistent(inv, machine)
    ensures var n := Run(inv, machine, events);
            && (forall i :: i in n.sensors ==>
                  && RosSafe(i) && n.sensors[i].hardware.provider != "" && n.sensors[i].hardware.serial != ""
                  && PlaceFree(n, machine, n.sensors[i].network, n.sensors[i].address, i)
                  && KeyFree(n, n.sensors[i].hardware, i)
                  && exists e :: e in n.known && e.id == i && e.state == Enrolled)
            && (forall g :: g in n.groups ==>
                  && n.groups[g].members != []
                  && (forall i, j :: 0 <= i < j < |n.groups[g].members| ==>
                        n.groups[g].members[i] != n.groups[g].members[j])
                  && (forall m :: m in n.groups[g].members ==> m in n.sensors))
            && (forall e :: e in n.known && e.state == Enrolled ==> e.id in n.sensors)
  {
    RunsStayConsistent(inv, machine, events);
    var n := Run(inv, machine, events);
    forall i | i in n.sensors
      ensures RosSafe(i) && Named(n.sensors[i].hardware)
      ensures PlaceFree(n, machine, n.sensors[i].network, n.sensors[i].address, i)
      ensures KeyFree(n, n.sensors[i].hardware, i)
      ensures exists e :: e in n.known && e.id == i && e.state == Enrolled
    {
      ItselfFits(n, machine, i);
      assert Has(n.known, i);
      assert n.known[Find(n.known, i).value].id == i;
    }
    forall g | g in n.groups
      ensures ValidGroup(g, n.groups[g], n.sensors)
    {
    }
  }
}
