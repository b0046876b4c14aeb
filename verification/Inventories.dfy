/** The registry's inventory: what validation demands before a save, what each operation does, and what
    survives every sequence of operations, saved or not. */
module Inventories {

  import opened HardwareIdentity
  import opened Optional
  import opened Sequences

  datatype Network = Network(
    approved: bool,
    subnetFirst: int, subnetLast: int,
    host: int,
    poolFirst: int, poolLast: int,
    direct: bool,
    maxDevices: nat,
    switchedMaxDevices: nat)

  type Machine = map<string, Network>

  /** Addresses are numbers; a camera without a network has none. */
  datatype Sensor = Sensor(hardware: Hardware, network: string, address: int, location: string)

  datatype Group = Group(provider: string, members: seq<string>, policy: string, previewRate: real)

  datatype Inventory = Inventory(
    sensors: map<string, Sensor>,
    known: seq<Entry>,
    groups: map<string, Group>,
    portModes: map<string, bool>)       // network to "direct"

  // ---------- validation ----------

  predicate Placed(s: Sensor, machine: Machine) {
    s.network == "" ||
    (&& s.network in machine
     && machine[s.network].subnetFirst <= s.address <= machine[s.network].subnetLast
     && s.address != machine[s.network].host)
  }

  predicate SamePlace(s: Sensor, t: Sensor) {
    s.network != "" && s.network == t.network && s.address == t.address
  }

  predicate Named(h: Hardware) {
    h.provider != "" && h.serial != ""
  }

  predicate DistinctKeys(sensors: map<string, Sensor>) {
    forall i, j :: i in sensors && j in sensors && i != j ==> KeyOf(sensors[i].hardware) != KeyOf(sensors[j].hardware)
  }

  predicate DistinctPlaces(sensors: map<string, Sensor>, machine: Machine) {
    && (forall i :: i in sensors ==> Placed(sensors[i], machine))
    && (forall i, j :: i in sensors && j in sensors && i != j ==> !SamePlace(sensors[i], sensors[j]))
  }

  predicate ValidSensors(sensors: map<string, Sensor>, machine: Machine) {
    && (forall i :: i in sensors ==> RosSafe(i) && Named(sensors[i].hardware))
    && DistinctKeys(sensors) && DistinctPlaces(sensors, machine)
  }

  predicate Clash(a: Hardware, b: Hardware) {
    a.provider == b.provider && a.serial == b.serial
  }

  predicate ValidKnown(known: seq<Entry>) {
    && (forall i :: 0 <= i < |known| ==> RosSafe(known[i].id) && Named(known[i].hardware))
    && (forall i, j :: 0 <= i < j < |known| ==> !Clash(known[i].hardware, known[j].hardware))
  }

  predicate Covered(sensors: map<string, Sensor>, known: seq<Entry>) {
    forall id :: id in sensors ==> Has(known, id)
  }

  predicate ValidGroup(id: string, g: Group, sensors: map<string, Sensor>) {
    && RosSafe(id) && g.provider != "" && g.members != [] && (g.policy == "strict" || g.policy == "degraded")
    && Distinct(g.members) && 0.0 < g.previewRate <= 10.0
    && forall m :: m in g.members ==> m in sensors
  }

  predicate ValidGroups(groups: map<string, Group>, sensors: map<string, Sensor>) {
    forall id :: id in groups ==> ValidGroup(id, groups[id], sensors)
  }

  predicate Valid(inv: Inventory, machine: Machine) {
    && (forall n :: n in inv.portModes ==> n in machine)
    && ValidSensors(inv.sensors, machine) && ValidKnown(inv.known)
    && Covered(inv.sensors, inv.known) && ValidGroups(inv.groups, inv.sensors)
  }

  /** Validation marks every enrolled camera as such in the catalogue. */
  function Marked(known: seq<Entry>, sensors: map<string, Sensor>): seq<Entry> {
    seq(|known|, i requires 0 <= i < |known| =>
      if known[i].id in sensors then known[i].(state := Enrolled) else known[i])
  }

  function Normalized(inv: Inventory): Inventory {
    inv.(known := Marked(inv.known, inv.sensors))
  }

  /** Saving validates, then writes; if either fails the inventory goes back to what it was. */
  function Saved(draft: Inventory, previous: Inventory, machine: Machine, written: bool): Inventory {
    if written && Valid(draft, machine) then Normalized(draft) else previous
  }

  // ---------- the operations ----------

  function Refreshed(h: Hardware, o: Hardware): Hardware {
    Resighted(h, o).(serial := Fresher(o.serial, h.serial))
  }

  function EnsureKnown(known: seq<Entry>, id: string, o: Hardware): seq<Entry> {
    var at := Find(known, id);
    if at.None? then known + [Entry(id, o, Observed)]
    else known[at.value := known[at.value].(hardware := Refreshed(known[at.value].hardware, o))]
  }

  function WithState(known: seq<Entry>, id: string, state: State): seq<Entry> {
    var at := Find(known, id);
    if at.None? then known else known[at.value := known[at.value].(state := state)]
  }

  function SetEntry(known: seq<Entry>, id: string, o: Hardware, state: State): seq<Entry> {
    WithState(EnsureKnown(known, id, o), id, state)
  }

  function StateOf(known: seq<Entry>, id: string): State
    requires Has(known, id)
  {
    known[Find(known, id).value].state
  }

  function Renamed(members: seq<string>, source: string, replacement: string): seq<string> {
    seq(|members|, i requires 0 <= i < |members| => if members[i] == source then replacement else members[i])
  }

  function RenamedGroups(groups: map<string, Group>, source: string, replacement: string): map<string, Group> {
    map id | id in groups :: groups[id].(members := Renamed(groups[id].members, source, replacement))
  }

  datatype Event =
    | Record(o: Hardware)
    | Enroll(o: Hardware, network: string, address: int, location: string)
    | Replace(source: string, o: Hardware)
    | MoveSensor(id: string, network: string, address: int)
    | Relabel(id: string, location: string)
    | Forget(id: string)
    | Purge(id: string)
    | UpsertGroup(id: string, group: Group)
    | DeleteGroup(id: string)
    | SetPortMode(network: string, direct: bool)

  function EnrollDraft(inv: Inventory, id: string, o: Hardware, network: string, address: int, location: string)
    : Inventory
  {
    var sensor := Sensor(o, network, address, if location != "" then location else "unknown");
    inv.(sensors := inv.sensors[id := sensor], known := SetEntry(inv.known, id, o, Enrolled))
  }

  function ReplaceDraft(inv: Inventory, source: string, id: string, o: Hardware): Inventory
    requires source in inv.sensors
  {
    var was := inv.sensors[source];
    Inventory((inv.sensors - {source})[id := was.(hardware := o)],
              SetEntry(SetEntry(inv.known, id, o, Enrolled), source, was.hardware, Retired),
              RenamedGroups(inv.groups, source, id), inv.portModes)
  }

  function ForgetDraft(inv: Inventory, id: string): Inventory
    requires id in inv.sensors
  {
    inv.(sensors := inv.sensors - {id},
         known := SetEntry(inv.known, id, inv.sensors[id].hardware, Archived))
  }

  function Without(known: seq<Entry>, id: string): seq<Entry> {
    var at := Find(known, id);
    if at.None? then known else known[..at.value] + known[at.value + 1..]
  }

  function OnNetwork(inv: Inventory, network: string): set<string> {
    set id | id in inv.sensors && inv.sensors[id].network == network
  }

  predicate Grouped(inv: Inventory, id: string) {
    exists g :: g in inv.groups && id in inv.groups[g].members
  }

  // Each operation either refuses before it touches anything, or edits and then saves.

  function AfterRecord(inv: Inventory, o: Hardware): Inventory {
    inv.(known := Recorded(inv.known, o, SensorIdFor(inv.known, o) in inv.sensors))
  }

  /** A retired camera is refused too, but only after its catalogue entry has been refreshed. */
  function AfterEnroll(inv: Inventory, machine: Machine, o: Hardware, network: string, address: int, location: string,
                       written: bool): Inventory
  {
    var id := SensorIdFor(inv.known, o);
    if id in inv.sensors then inv
    else if RefusedAsRetired(inv, o) then inv.(known := EnsureKnown(inv.known, id, o))
    else Saved(EnrollDraft(inv, id, o, network, address, location), inv, machine, written)
  }

  predicate RefusedAsRetired(inv: Inventory, o: Hardware) {
    var id := SensorIdFor(inv.known, o);
    id !in inv.sensors && Has(inv.known, id) && StateOf(inv.known, id) == Retired
  }

  function AfterReplace(inv: Inventory, machine: Machine, source: string, o: Hardware, written: bool): Inventory {
    if source !in inv.sensors || NewSensorId(o) in inv.sensors then inv
    else Saved(ReplaceDraft(inv, source, NewSensorId(o), o), inv, machine, written)
  }

  function AfterMove(inv: Inventory, machine: Machine, id: string, network: string, address: int, written: bool)
    : Inventory
  {
    if id !in inv.sensors then inv
    else
      var moved := inv.sensors[id].(network := network, address := address, location := "unknown");
      Saved(inv.(sensors := inv.sensors[id := moved]), inv, machine, written)
  }

  function AfterRelabel(inv: Inventory, machine: Machine, id: string, location: string, written: bool): Inventory {
    if id !in inv.sensors then inv
    else Saved(inv.(sensors := inv.sensors[id := inv.sensors[id].(location := location)]), inv, machine, written)
  }

  function AfterForget(inv: Inventory, machine: Machine, id: string, written: bool): Inventory {
    if id !in inv.sensors || Grouped(inv, id) then inv else Saved(ForgetDraft(inv, id), inv, machine, written)
  }

  function AfterPurge(inv: Inventory, machine: Machine, id: string, written: bool): Inventory {
    if id in inv.sensors || !Has(inv.known, id) then inv
    else Saved(inv.(known := Without(inv.known, id)), inv, machine, written)
  }

  function AfterUpsertGroup(inv: Inventory, machine: Machine, id: string, group: Group, written: bool): Inventory {
    if !RosSafe(id) then inv else Saved(inv.(groups := inv.groups[id := group]), inv, machine, written)
  }

  function AfterDeleteGroup(inv: Inventory, machine: Machine, id: string, written: bool): Inventory {
    if id !in inv.groups then inv else Saved(inv.(groups := inv.groups - {id}), inv, machine, written)
  }

  function AfterSetPortMode(inv: Inventory, machine: Machine, network: string, direct: bool, written: bool): Inventory {
    if network !in machine || (direct && |OnNetwork(inv, network)| > 1) then inv
    else Saved(inv.(portModes := inv.portModes[network := direct]), inv, machine, written)
  }

  function Step(inv: Inventory, machine: Machine, e: Event, written: bool): Inventory {
    match e
    case Record(o) => AfterRecord(inv, o)
    case Enroll(o, network, address, location) => AfterEnroll(inv, machine, o, network, address, location, written)
    case Replace(source, o) => AfterReplace(inv, machine, source, o, written)
    case MoveSensor(id, network, address) => AfterMove(inv, machine, id, network, address, written)
    case Relabel(id, location) => AfterRelabel(inv, machine, id, location, written)
    case Forget(id) => AfterForget(inv, machine, id, written)
    case Purge(id) => AfterPurge(inv, machine, id, written)
    case UpsertGroup(id, group) => AfterUpsertGroup(inv, machine, id, group, written)
    case DeleteGroup(id) => AfterDeleteGroup(inv, machine, id, written)
    case SetPortMode(network, direct) => AfterSetPortMode(inv, machine, network, direct, written)
  }

  function Run(inv: Inventory, machine: Machine, events: seq<(Event, bool)>): Inventory
    decreases events
  {
    if events == [] then inv else Run(Step(inv, machine, events[0].0, events[0].1), machine, events[1..])
  }

  // ---------- what every operation keeps ----------

  /** The catalogue calls exactly the enrolled cameras enrolled. */
  predicate StatesMatch(inv: Inventory) {
    forall i :: 0 <= i < |inv.known| ==> (inv.known[i].state == Enrolled <==> inv.known[i].id in inv.sensors)
  }

  predicate Consistent(inv: Inventory, machine: Machine) {
    && ValidSensors(inv.sensors, machine) && ValidGroups(inv.groups, inv.sensors)
    && Covered(inv.sensors, inv.known) && Catalogued(inv.known) && StatesMatch(inv)
  }

  /** A draft may call too few cameras enrolled, never too many. */
  predicate NoFalseStates(inv: Inventory) {
    forall i :: 0 <= i < |inv.known| && inv.known[i].state == Enrolled ==> inv.known[i].id in inv.sensors
  }

  lemma MarkedFinds(known: seq<Entry>, sensors: map<string, Sensor>, id: string)
    ensures Has(Marked(known, sensors), id) <==> Has(known, id)
  {
    FindKept(known, Marked(known, sensors), id);
  }

  lemma MarkedMatches(draft: Inventory)
    requires Catalogued(draft.known) && NoFalseStates(draft) && Covered(draft.sensors, draft.known)
    ensures var inv := Normalized(draft); Catalogued(inv.known) && StatesMatch(inv) && Covered(inv.sensors, inv.known)
  {
    forall id | id in draft.sensors
      ensures Has(Marked(draft.known, draft.sensors), id)
    {
      MarkedFinds(draft.known, draft.sensors, id);
    }
  }

  lemma SavedKeeps(draft: Inventory, previous: Inventory, machine: Machine, written: bool)
    requires Consistent(previous, machine) && Catalogued(draft.known) && NoFalseStates(draft)
    ensures Consistent(Saved(draft, previous, machine, written), machine)
  {
    if written && Valid(draft, machine) {
      MarkedMatches(draft);
    }
  }

  lemma FindIs(known: seq<Entry>, i: nat)
    requires Catalogued(known) && i < |known|
    ensures Find(known, known[i].id) == Some(i)
  {
    FirstIs(known, (e: Entry) => e.id == known[i].id, i);
  }

  lemma EnsureKnownKeeps(known: seq<Entry>, id: string, o: Hardware)
    requires Catalogued(known)
    ensures var after := EnsureKnown(known, id, o);
            && Catalogued(after) && Has(after, id)
            && (forall i :: 0 <= i < |known| ==>
                  i < |after| && after[i].id == known[i].id && after[i].state == known[i].state)
            && (|after| == |known| || (|after| == |known| + 1 && after[|known|] == Entry(id, o, Observed)))
  {
    var after := EnsureKnown(known, id, o);
    if Find(known, id).None? {
      assert forall e :: e in known ==> e.id != id;
      assert forall i :: 0 <= i < |known| ==> known[i] in known;
      FindIs(after, |known|);
    } else {
      FindIs(after, Find(known, id).value);
    }
  }

  lemma WithStateKeeps(known: seq<Entry>, id: string, state: State)
    requires Catalogued(known)
    ensures var after := WithState(known, id, state);
            && Catalogued(after) && |after| == |known|
            && (forall i :: 0 <= i < |known| ==>
                  after[i].id == known[i].id && after[i].state == if known[i].id == id then state else known[i].state)
  {
    forall i | 0 <= i < |known| && known[i].id == id
      ensures Find(known, id) == Some(i)
    {
      FindIs(known, i);
    }
  }

  /** Setting one entry's state leaves the names and states of the others. */
  lemma SetEntryKeeps(known: seq<Entry>, id: string, o: Hardware, state: State)
    requires Catalogued(known)
    ensures var after := SetEntry(known, id, o, state);
            && Catalogued(after)
            && forall i :: 0 <= i < |after| ==>
                 if after[i].id == id then after[i].state == state
                 else i < |known| && after[i].id == known[i].id && after[i].state == known[i].state
  {
    EnsureKnownKeeps(known, id, o);
    WithStateKeeps(EnsureKnown(known, id, o), id, state);
  }

  lemma EnrollDraftKeeps(inv: Inventory, id: string, o: Hardware, network: string, address: int, location: string)
    requires Catalogued(inv.known) && StatesMatch(inv)
    ensures var d := EnrollDraft(inv, id, o, network, address, location); Catalogued(d.known) && NoFalseStates(d)
  {
    SetEntryKeeps(inv.known, id, o, Enrolled);
  }

  lemma ReplaceDraftKeeps(inv: Inventory, source: string, id: string, o: Hardware)
    requires Catalogued(inv.known) && StatesMatch(inv) && source in inv.sensors && id != source
    ensures var d := ReplaceDraft(inv, source, id, o); Catalogued(d.known) && NoFalseStates(d)
  {
    var d := ReplaceDraft(inv, source, id, o);
    var known := SetEntry(inv.known, id, o, Enrolled);
    SetEntryKeeps(inv.known, id, o, Enrolled);
    SetEntryKeeps(known, source, inv.sensors[source].hardware, Retired);
    forall i | 0 <= i < |d.known| && d.known[i].state == Enrolled
      ensures d.known[i].id in d.sensors
    {
      assert d.known[i].id != source && d.known[i].id == known[i].id;
      assert d.known[i].id == id || d.known[i].id in inv.sensors;
    }
  }

  lemma ForgetDraftKeeps(inv: Inventory, id: string)
    requires Catalogued(inv.known) && StatesMatch(inv) && id in inv.sensors
    ensures var d := ForgetDraft(inv, id); Catalogued(d.known) && NoFalseStates(d)
  {
    SetEntryKeeps(inv.known, id, inv.sensors[id].hardware, Archived);
  }

  lemma PurgeDraftKeeps(inv: Inventory, id: string)
    requires Catalogued(inv.known) && StatesMatch(inv)
    ensures var d := inv.(known := Without(inv.known, id)); Catalogued(d.known) && NoFalseStates(d)
  {
  }

  /** Entries may gain facts and be added, as long as names, states and coverage stay. */
  lemma CatalogueGrows(inv: Inventory, machine: Machine, known: seq<Entry>)
    requires Consistent(inv, machine) && Catalogued(known) && |inv.known| <= |known|
    requires forall i :: 0 <= i < |inv.known| ==> known[i].id == inv.known[i].id && known[i].state == inv.known[i].state
    requires forall i :: |inv.known| <= i < |known| ==> known[i].state == Observed && !Has(inv.known, known[i].id)
    ensures Consistent(inv.(known := known), machine)
  {
    forall id | id in inv.sensors
      ensures Has(known, id)
    {
      FindIs(known, Find(inv.known, id).value);
    }
  }

  lemma RecordKeeps(inv: Inventory, machine: Machine, o: Hardware)
    requires Consistent(inv, machine)
    ensures Consistent(AfterRecord(inv, o), machine)
  {
    var id := SensorIdFor(inv.known, o);
    var known := Recorded(inv.known, o, id in inv.sensors);
    var at := Find(inv.known, id);
    assert at.None? ==> forall i :: 0 <= i < |inv.known| ==> inv.known[i] in inv.known;
    CatalogueGrows(inv, machine, known);
  }

  lemma EnrollKeeps(inv: Inventory, machine: Machine, o: Hardware, network: string, address: int, location: string,
                    written: bool)
    requires Consistent(inv, machine)
    ensures Consistent(AfterEnroll(inv, machine, o, network, address, location, written), machine)
  {
    var id := SensorIdFor(inv.known, o);
    if RefusedAsRetired(inv, o) {
      EnsureKnownKeeps(inv.known, id, o);
      CatalogueGrows(inv, machine, EnsureKnown(inv.known, id, o));
    } else if id !in inv.sensors {
      EnrollDraftKeeps(inv, id, o, network, address, location);
      SavedKeeps(EnrollDraft(inv, id, o, network, address, location), inv, machine, written);
    }
  }

  lemma ReplaceKeeps(inv: Inventory, machine: Machine, source: string, o: Hardware, written: bool)
    requires Consistent(inv, machine)
    ensures Consistent(AfterReplace(inv, machine, source, o, written), machine)
  {
    if source in inv.sensors && NewSensorId(o) !in inv.sensors {
      ReplaceDraftKeeps(inv, source, NewSensorId(o), o);
      SavedKeeps(ReplaceDraft(inv, source, NewSensorId(o), o), inv, machine, written);
    }
  }

  lemma ForgetKeeps(inv: Inventory, machine: Machine, id: string, written: bool)
    requires Consistent(inv, machine)
    ensures Consistent(AfterForget(inv, machine, id, written), machine)
  {
    if id in inv.sensors && !Grouped(inv, id) {
      ForgetDraftKeeps(inv, id);
      SavedKeeps(ForgetDraft(inv, id), inv, machine, written);
    }
  }

  lemma PurgeKeeps(inv: Inventory, machine: Machine, id: string, written: bool)
    requires Consistent(inv, machine)
    ensures Consistent(AfterPurge(inv, machine, id, written), machine)
  {
    PurgeDraftKeeps(inv, id);
    SavedKeeps(inv.(known := Without(inv.known, id)), inv, machine, written);
  }

  /** Edits of groups, port modes and the sensors' own details leave the catalogue alone. */
  lemma CatalogueUntouched(inv: Inventory, draft: Inventory, machine: Machine, written: bool)
    requires Consistent(inv, machine) && draft.known == inv.known && draft.sensors.Keys == inv.sensors.Keys
    ensures Consistent(Saved(draft, inv, machine, written), machine)
  {
    SavedKeeps(draft, inv, machine, written);
  }

  lemma MoveKeeps(inv: Inventory, machine: Machine, id: string, network: string, address: int, written: bool)
    requires Consistent(inv, machine)
    ensures Consistent(AfterMove(inv, machine, id, network, address, written), machine)
  {
    if id in inv.sensors {
      var moved := inv.sensors[id].(network := network, address := address, location := "unknown");
      CatalogueUntouched(inv, inv.(sensors := inv.sensors[id := moved]), machine, written);
    }
  }

  lemma RelabelKeeps(inv: Inventory, machine: Machine, id: string, location: string, written: bool)
    requires Consistent(inv, machine)
    ensures Consistent(AfterRelabel(inv, machine, id, location, written), machine)
  {
    if id in inv.sensors {
      var relabelled := inv.sensors[id].(location := location);
      CatalogueUntouched(inv, inv.(sensors := inv.sensors[id := relabelled]), machine, written);
    }
  }

  lemma UpsertGroupKeeps(inv: Inventory, machine: Machine, id: string, group: Group, written: bool)
    requires Consistent(inv, machine)
    ensures Consistent(AfterUpsertGroup(inv, machine, id, group, written), machine)
  {
    CatalogueUntouched(inv, inv.(groups := inv.groups[id := group]), machine, written);
  }

  lemma DeleteGroupKeeps(inv: Inventory, machine: Machine, id: string, written: bool)
    requires Consistent(inv, machine)
    ensures Consistent(AfterDeleteGroup(inv, machine, id, written), machine)
  {
    CatalogueUntouched(inv, inv.(groups := inv.groups - {id}), machine, written);
  }

  lemma SetPortModeKeeps(inv: Inventory, machine: Machine, network: string, direct: bool, written: bool)
    requires Consistent(inv, machine)
    ensures Consistent(AfterSetPortMode(inv, machine, network, direct, written), machine)
  {
    CatalogueUntouched(inv, inv.(portModes := inv.portModes[network := direct]), machine, written);
  }

  predicate ForCatalogue(e: Event) {
    e.Record? || e.Enroll? || e.Replace? || e.Forget? || e.Purge?
  }

  lemma CatalogueStepKeeps(inv: Inventory, machine: Machine, e: Event, written: bool)
    requires Consistent(inv, machine) && ForCatalogue(e)
    ensures Consistent(Step(inv, machine, e, written), machine)
  {
    match e
    case Record(o) => RecordKeeps(inv, machine, o);
    case Enroll(o, network, address, location) => EnrollKeeps(inv, machine, o, network, address, location, written);
    case Replace(source, o) => ReplaceKeeps(inv, machine, source, o, written);
    case Forget(id) => ForgetKeeps(inv, machine, id, written);
    case Purge(id) => PurgeKeeps(inv, machine, id, written);
  }

  lemma OtherStepKeeps(inv: Inventory, machine: Machine, e: Event, written: bool)
    requires Consistent(inv, machine) && !ForCatalogue(e)
    ensures Consistent(Step(inv, machine, e, written), machine)
  {
    match e
    case MoveSensor(id, network, address) => MoveKeeps(inv, machine, id, network, address, written);
    case Relabel(id, location) => RelabelKeeps(inv, machine, id, location, written);
    case UpsertGroup(id, group) => UpsertGroupKeeps(inv, machine, id, group, written);
    case DeleteGroup(id) => DeleteGroupKeeps(inv, machine, id, written);
    case SetPortMode(network, direct) => SetPortModeKeeps(inv, machine, network, direct, written);
  }

  lemma StepKeeps(inv: Inventory, machine: Machine, e: Event, written: bool)
    requires Consistent(inv, machine)
    ensures Consistent(Step(inv, machine, e, written), machine)
  {
    if ForCatalogue(e) {
      CatalogueStepKeeps(inv, machine, e, written);
    } else {
      OtherStepKeeps(inv, machine, e, written);
    }
  }

  /** Every sequence of operations, with every choice of failing saves, keeps groups free of repeats and of
      strangers, every enrolled camera in the catalogue, the state "enrolled" exact, and hardware keys and
      addresses unique and in place. */
  lemma {:induction false} RunsStayConsistent(inv: Inventory, machine: Machine, events: seq<(Event, bool)>)
    requires Consistent(inv, machine)
    ensures Consistent(Run(inv, machine, events), machine)
    decreases events
  {
    if events != [] {
      StepKeeps(inv, machine, events[0].0, events[0].1);
      RunsStayConsistent(Step(inv, machine, events[0].0, events[0].1), machine, events[1..]);
    }
  }

  // ---------- replacement and groups ----------

  lemma RenamedMembers(was: seq<string>, source: string, replacement: string)
    requires Distinct(was) && replacement !in was && source != replacement
    ensures var now := Renamed(was, source, replacement);
            && Distinct(now) && source !in now && (replacement in now <==> source in was)
            && forall m :: m in now ==> m == replacement || m in was
  {
    var now := Renamed(was, source, replacement);
    assert forall i :: 0 <= i < |was| ==> was[i] in was;
    if source in was {
      var i :| 0 <= i < |was| && was[i] == source;
      assert now[i] == replacement;
    }
  }

  lemma ReplacedGroup(id: string, g: Group, sensors: map<string, Sensor>, after: map<string, Sensor>, source: string,
                      replacement: string)
    requires ValidGroup(id, g, sensors) && source in sensors && replacement !in sensors
    requires forall m :: m in after <==> m == replacement || (m in sensors && m != source)
    ensures ValidGroup(id, g.(members := Renamed(g.members, source, replacement)), after)
  {
    RenamedMembers(g.members, source, replacement);
  }

  lemma ReplacedInGroup(inv: Inventory, d: Inventory, source: string, id: string, g: string)
    requires ValidGroups(inv.groups, inv.sensors) && source in inv.sensors && id !in inv.sensors && g in inv.groups
    requires forall m :: m in d.sensors <==> m == id || (m in inv.sensors && m != source)
    requires d.groups == RenamedGroups(inv.groups, source, id)
    ensures g in d.groups && ValidGroup(g, d.groups[g], d.sensors) && source !in d.groups[g].members
    ensures id in d.groups[g].members <==> source in inv.groups[g].members
  {
    assert ValidGroup(g, inv.groups[g], inv.sensors);
    RenamedMembers(inv.groups[g].members, source, id);
    ReplacedGroup(g, inv.groups[g], inv.sensors, d.sensors, source, id);
  }

  /** A replacement takes its predecessor's place in every group, so no group stands in its way. */
  lemma ReplaceKeepsGroups(inv: Inventory, machine: Machine, source: string, id: string, o: Hardware)
    requires Consistent(inv, machine) && source in inv.sensors && id !in inv.sensors
    ensures var d := ReplaceDraft(inv, source, id, o);
            && ValidGroups(d.groups, d.sensors)
            && forall g :: g in inv.groups ==>
                 && g in d.groups && source !in d.groups[g].members
                 && (id in d.groups[g].members <==> source in inv.groups[g].members)
  {
    var d := ReplaceDraft(inv, source, id, o);
    forall g | g in inv.groups
      ensures g in d.groups && ValidGroup(g, d.groups[g], d.sensors) && source !in d.groups[g].members
      ensures id in d.groups[g].members <==> source in inv.groups[g].members
    {
      ReplacedInGroup(inv, d, source, id, g);
    }
  }

  // ---------- sightings and saving ----------

  lemma RecordedKnown(known: seq<Entry>, o: Hardware, isEnrolled: bool)
    requires Catalogued(known) && ValidKnown(known)
    ensures ValidKnown(Recorded(known, o, isEnrolled)) <==>
      Has(known, SensorIdFor(known, o)) ||
      (Named(o) && forall i :: 0 <= i < |known| ==> !Clash(known[i].hardware, o))
  {
    var after := Recorded(known, o, isEnrolled);
    if Has(known, SensorIdFor(known, o)) {
      assert forall i :: 0 <= i < |known| ==> Clash(after[i].hardware, known[i].hardware) && after[i].id == known[i].id;
    } else {
      ResolvedIdIsRosSafe(known, o);
      assert forall i :: 0 <= i < |known| ==> after[i] == known[i];
      assert after[|known|].hardware == o;
    }
  }

  /** A sighting leaves a savable inventory savable exactly when it is booked on an entry there already is,
      or is named and shares its driver and serial number with no entry. */
  lemma RecordSavableExactly(inv: Inventory, machine: Machine, o: Hardware)
    requires Consistent(inv, machine) && Valid(inv, machine)
    ensures Valid(AfterRecord(inv, o), machine) <==>
      Has(inv.known, SensorIdFor(inv.known, o)) ||
      (Named(o) && forall i :: 0 <= i < |inv.known| ==> !Clash(inv.known[i].hardware, o))
  {
    RecordKeeps(inv, machine, o);
    RecordedKnown(inv.known, o, SensorIdFor(inv.known, o) in inv.sensors);
  }

  /** It can happen: hardware is told apart by vendor and serial number, but the catalogue must be unique
      by driver and serial number, so two vendors sharing a serial number block every save. */
  lemma SightingCanBlockSaving(machine: Machine) returns (inv: Inventory, o: Hardware)
    ensures Consistent(inv, machine) && Valid(inv, machine)
    ensures !Valid(AfterRecord(inv, o), machine)
  {
    o := Hardware("genicam", "camera", "z", "", "1", "");
    var name := if NewSensorId(o) == "a" then "b" else "a";
    var e := Entry(name, o.(vendor := "y"), Observed);
    inv := Inventory(map[], [e], map[], map[]);
    ShortVendor("y");
    ShortVendor("z");
    assert !SameVendorSerial(e, o);
    assert Match(inv.known, o) == None;
    assert !Has(inv.known, NewSensorId(o));
    assert inv.known[0] == e && Clash(e.hardware, o);
    RecordSavableExactly(inv, machine, o);
  }
}
