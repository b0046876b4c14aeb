/** What two operations of the registry do together: archiving undoes an enrolment, an archived camera
    gets its old name back, and a replaced camera stays out. */
module InventoryRoundTrips {

  import opened HardwareIdentity
  import opened Inventories
  import opened Optional

  // ---------- looking things up after an edit ----------

  predicate SameHardwareAndNames(a: seq<Entry>, b: seq<Entry>) {
    |a| == |b| && forall i :: 0 <= i < |a| ==> a[i].id == b[i].id && a[i].hardware == b[i].hardware
  }

  lemma FirstKept(a: seq<Entry>, b: seq<Entry>, test: Entry -> bool)
    requires |a| == |b| && forall i :: 0 <= i < |a| ==> test(a[i]) == test(b[i])
    ensures First(a, test) == First(b, test)
  {
    var at := First(a, test);
    if at.Some? {
      FirstIs(b, test, at.value);
    } else {
      forall e | e in b
        ensures !test(e)
      {
        var i :| 0 <= i < |b| && b[i] == e;
        assert a[i] in a;
      }
    }
  }

  /** Resolving an observation looks at names and hardware, not at states. */
  lemma StatesDoNotMatter(a: seq<Entry>, b: seq<Entry>, o: Hardware)
    requires SameHardwareAndNames(a, b)
    ensures SensorIdFor(a, o) == SensorIdFor(b, o)
  {
    var mac := NormalizedMac(o.mac);
    FirstKept(a, b, (e: Entry) => SameMac(e, mac));
    FirstKept(a, b, (e: Entry) => SameVendorSerial(e, o));
    FindKept(a, b, NewSensorId(o));
  }

  /** Where the entry of an observation ends up, and that nothing before it has changed. */
  lemma EnsuredPlace(known: seq<Entry>, o: Hardware) returns (i: nat)
    requires Catalogued(known)
    ensures var id := SensorIdFor(known, o); var after := EnsureKnown(known, id, o);
            && i < |after| && after[i].id == id
            && (forall k :: 0 <= k < i ==> k < |known| && after[k] == known[k] && known[k] in known)
            && (i == |known| || (i < |known| == |after| && after[i].hardware == Refreshed(known[i].hardware, o)))
            && (i == |known| ==> after[i].hardware == o && Match(known, o).None?)
            && (Match(known, o).Some? ==> i == Match(known, o).value)
            && (forall k :: 0 <= k < |after| && k != i ==> k < |known| && after[k] == known[k])
  {
    var matched := Match(known, o);
    if matched.Some? {
      FindIs(known, matched.value);
    }
    var at := Find(known, SensorIdFor(known, o));
    i := if at.Some? then at.value else |known|;
  }

  /** Enrolling refreshes the serial number too, and the observation still resolves to the same name. */
  lemma EnsuredResolves(known: seq<Entry>, o: Hardware)
    requires Catalogued(known)
    ensures var id := SensorIdFor(known, o); SensorIdFor(EnsureKnown(known, id, o), o) == id
  {
    var id := SensorIdFor(known, o);
    var after := EnsureKnown(known, id, o);
    var i := EnsuredPlace(known, o);
    var mac := NormalizedMac(o.mac);
    if mac != "" {
      FirstIs(after, (e: Entry) => SameMac(e, mac), i);
    } else if SameVendorSerial(after[i], o) {
      FirstIs(after, (e: Entry) => SameVendorSerial(e, o), i);
    } else {
      FirstNone(after, (e: Entry) => SameVendorSerial(e, o));
      FindKept(known, after, NewSensorId(o));
    }
  }

  // ---------- archiving undoes an enrolment ----------

  lemma RefreshedTwice(h: Hardware, o: Hardware)
    ensures Refreshed(Refreshed(h, o), o) == Refreshed(h, o)
  {
  }

  /** Where an entry sits: at its place, or at the end when it is new. */
  function PlaceOf(known: seq<Entry>, id: string): nat {
    if Has(known, id) then Find(known, id).value else |known|
  }

  lemma EnsuredAt(known: seq<Entry>, id: string, o: Hardware)
    requires Catalogued(known)
    ensures var i, after := PlaceOf(known, id), EnsureKnown(known, id, o);
            && i < |after| && Find(after, id) == Some(i) && after[i].id == id
            && after[i].hardware == (if i < |known| then Refreshed(known[i].hardware, o) else o)
            && (i >= |known| ==> i == |known|)
  {
    EnsureKnownKeeps(known, id, o);
    FindIs(EnsureKnown(known, id, o), PlaceOf(known, id));
  }

  /** The entry after it has been set, wherever it sits. */
  lemma EntryAt(known: seq<Entry>, id: string, o: Hardware, state: State)
    requires Catalogued(known)
    ensures var i, after := PlaceOf(known, id), SetEntry(known, id, o, state);
            && Catalogued(after) && i < |after| && Find(after, id) == Some(i)
            && after[i] == Entry(id, if i < |known| then Refreshed(known[i].hardware, o) else o, state)
            && SameHardwareAndNames(EnsureKnown(known, id, o), after)
  {
    EnsuredAt(known, id, o);
    EnsureKnownKeeps(known, id, o);
    FindIs(SetEntry(known, id, o, state), PlaceOf(known, id));
  }

  lemma FreshEntry(known: seq<Entry>, id: string, o: Hardware, state: State, marked: seq<Entry>)
    requires Catalogued(known) && SameHardwareAndNames(SetEntry(known, id, o, state), marked)
    ensures var i := PlaceOf(known, id);
            && Catalogued(marked) && i < |marked| && Find(marked, id) == Some(i)
            && Refreshed(marked[i].hardware, o) == marked[i].hardware
    ensures SameHardwareAndNames(EnsureKnown(known, id, o), marked)
  {
    var i := PlaceOf(known, id);
    EntryAt(known, id, o, state);
    FindIs(marked, i);
    if i < |known| {
      RefreshedTwice(known[i].hardware, o);
    }
  }

  lemma NothingToRefresh(known: seq<Entry>, id: string, o: Hardware, i: nat)
    requires i < |known| && Find(known, id) == Some(i) && Refreshed(known[i].hardware, o) == known[i].hardware
    ensures EnsureKnown(known, id, o) == known
  {
  }

  /** Setting an entry from hardware it already has changes its state alone. */
  lemma SetEntryAgain(known: seq<Entry>, id: string, o: Hardware, i: nat, later: State)
    requires Catalogued(known) && i < |known| && Find(known, id) == Some(i)
    requires Refreshed(known[i].hardware, o) == known[i].hardware
    ensures var again := SetEntry(known, id, o, later);
            && SameHardwareAndNames(known, again) && Has(again, id) && StateOf(again, id) == later
  {
    NothingToRefresh(known, id, o, i);
    EntryAt(known, id, o, later);
  }

  lemma SameKnownStaysValid(a: seq<Entry>, b: seq<Entry>, sensors: map<string, Sensor>)
    requires SameHardwareAndNames(a, b)
    ensures ValidKnown(a) ==> ValidKnown(b)
    ensures Covered(sensors, a) ==> Covered(sensors, b)
  {
    forall id | id in sensors
      ensures Has(a, id) <==> Has(b, id)
    {
      FindKept(a, b, id);
    }
  }

  /** The inventory right after a camera has been enrolled, compared with the one before. */
  predicate JustEnrolled(inv: Inventory, enrolled: Inventory, id: string, o: Hardware) {
    && enrolled.groups == inv.groups && enrolled.portModes == inv.portModes
    && id !in inv.sensors && id in enrolled.sensors && enrolled.sensors - {id} == inv.sensors
    && enrolled.sensors[id].hardware == o
    && SameHardwareAndNames(SetEntry(inv.known, id, o, Enrolled), enrolled.known)
  }

  lemma DraftIsJustEnrolled(inv: Inventory, id: string, o: Hardware, network: string, address: int, location: string)
    requires id !in inv.sensors
    ensures JustEnrolled(inv, Normalized(EnrollDraft(inv, id, o, network, address, location)), id, o)
  {
  }

  lemma NotGrouped(inv: Inventory, id: string)
    requires ValidGroups(inv.groups, inv.sensors) && id !in inv.sensors
    ensures forall g :: g in inv.groups ==> id !in inv.groups[g].members
  {
    forall g | g in inv.groups
      ensures id !in inv.groups[g].members
    {
      assert ValidGroup(g, inv.groups[g], inv.sensors);
    }
  }

  /** What archiving saves then: everything as before, but for the entry of the camera. */
  function ArchivedDraft(inv: Inventory, enrolled: Inventory, id: string, o: Hardware): Inventory {
    Inventory(inv.sensors, SetEntry(enrolled.known, id, o, Archived), inv.groups, inv.portModes)
  }

  lemma ArchivedDraftIsValid(inv: Inventory, enrolled: Inventory, machine: Machine, id: string, o: Hardware)
    requires Consistent(inv, machine) && JustEnrolled(inv, enrolled, id, o) && Valid(enrolled, machine)
    ensures Valid(ArchivedDraft(inv, enrolled, id, o), machine)
  {
    FreshEntry(inv.known, id, o, Enrolled, enrolled.known);
    SetEntryAgain(enrolled.known, id, o, PlaceOf(inv.known, id), Archived);
    SameKnownStaysValid(enrolled.known, SetEntry(enrolled.known, id, o, Archived), inv.sensors);
    assert forall x :: x in inv.sensors ==> x in enrolled.sensors;
  }

  lemma ForgetArchives(inv: Inventory, enrolled: Inventory, machine: Machine, id: string, o: Hardware)
    requires Consistent(inv, machine) && JustEnrolled(inv, enrolled, id, o) && Valid(enrolled, machine)
    ensures AfterForget(enrolled, machine, id, true) == Normalized(ArchivedDraft(inv, enrolled, id, o))
  {
    NotGrouped(inv, id);
    ArchivedDraftIsValid(inv, enrolled, machine, id, o);
    assert ForgetDraft(enrolled, id) == ArchivedDraft(inv, enrolled, id, o);
  }

  lemma MarkingKeepsTheRest(draft: Inventory, id: string, o: Hardware)
    requires Has(draft.known, id) && id !in draft.sensors
    ensures var inv := Normalized(draft);
            && Has(inv.known, id) && StateOf(inv.known, id) == StateOf(draft.known, id)
            && SensorIdFor(inv.known, o) == SensorIdFor(draft.known, o)
  {
    FindKept(draft.known, Normalized(draft).known, id);
    StatesDoNotMatter(Normalized(draft).known, draft.known, o);
  }

  lemma ArchivedEntry(inv: Inventory, enrolled: Inventory, id: string, o: Hardware)
    requires Catalogued(inv.known) && JustEnrolled(inv, enrolled, id, o) && id == SensorIdFor(inv.known, o)
    ensures var archived := Normalized(ArchivedDraft(inv, enrolled, id, o));
            && Has(archived.known, id) && StateOf(archived.known, id) == Archived && SensorIdFor(archived.known, o) == id
  {
    FreshEntry(inv.known, id, o, Enrolled, enrolled.known);
    SetEntryAgain(enrolled.known, id, o, PlaceOf(inv.known, id), Archived);
    EnsuredResolves(inv.known, o);
    StatesDoNotMatter(EnsureKnown(inv.known, id, o), enrolled.known, o);
    StatesDoNotMatter(enrolled.known, SetEntry(enrolled.known, id, o, Archived), o);
    MarkingKeepsTheRest(ArchivedDraft(inv, enrolled, id, o), id, o);
  }

  lemma MarkedStaysValid(draft: Inventory, machine: Machine)
    requires Valid(draft, machine)
    ensures Valid(Normalized(draft), machine)
  {
    SameKnownStaysValid(draft.known, Normalized(draft).known, draft.sensors);
  }

  predicate Enrollable(inv: Inventory, machine: Machine, o: Hardware, network: string, address: int, location: string) {
    var id := SensorIdFor(inv.known, o);
    && id !in inv.sensors && !RefusedAsRetired(inv, o)
    && Valid(EnrollDraft(inv, id, o, network, address, location), machine)
  }

  lemma EnrollSaves(inv: Inventory, machine: Machine, o: Hardware, network: string, address: int, location: string)
    requires Enrollable(inv, machine, o, network, address, location)
    ensures AfterEnroll(inv, machine, o, network, address, location, true) ==
            Normalized(EnrollDraft(inv, SensorIdFor(inv.known, o), o, network, address, location))
  {
  }

  /** Archiving a camera right after enrolling it always succeeds, restores cameras, groups and port modes
      exactly, leaves its catalogue entry archived, and the camera gets its old name when it is seen again. */
  lemma ArchiveUndoesEnroll(inv: Inventory, machine: Machine, o: Hardware, network: string, address: int, location: string)
    requires Consistent(inv, machine) && Enrollable(inv, machine, o, network, address, location)
    ensures var id := SensorIdFor(inv.known, o);
            var enrolled := AfterEnroll(inv, machine, o, network, address, location, true);
            var archived := AfterForget(enrolled, machine, id, true);
            && id in enrolled.sensors && id !in archived.sensors
            && archived.sensors == inv.sensors && archived.groups == inv.groups && archived.portModes == inv.portModes
            && Has(archived.known, id) && StateOf(archived.known, id) == Archived
            && SensorIdFor(archived.known, o) == id
  {
    var id := SensorIdFor(inv.known, o);
    var draft := EnrollDraft(inv, id, o, network, address, location);
    var enrolled := Normalized(draft);
    EnrollSaves(inv, machine, o, network, address, location);
    DraftIsJustEnrolled(inv, id, o, network, address, location);
    MarkedStaysValid(draft, machine);
    ForgetArchives(inv, enrolled, machine, id, o);
    ArchivedEntry(inv, enrolled, id, o);
  }

  // ---------- a replaced camera stays out ----------

  lemma ReplacedEntry(inv: Inventory, source: string, id: string, o: Hardware)
    requires Catalogued(inv.known) && source in inv.sensors && id != source
    ensures var known := ReplaceDraft(inv, source, id, o).known; Has(known, source) && StateOf(known, source) == Retired
  {
    var known := SetEntry(inv.known, id, o, Enrolled);
    SetEntryKeeps(inv.known, id, o, Enrolled);
    EntryAt(known, source, inv.sensors[source].hardware, Retired);
  }

  lemma RetiredIsRefused(inv: Inventory, machine: Machine, o: Hardware, network: string, address: int, location: string,
                         written: bool)
    requires RefusedAsRetired(inv, o)
    ensures AfterEnroll(inv, machine, o, network, address, location, written).sensors == inv.sensors
  {
  }

  lemma ReplaceSaves(inv: Inventory, machine: Machine, source: string, o: Hardware)
    requires source in inv.sensors && NewSensorId(o) !in inv.sensors
    requires Valid(ReplaceDraft(inv, source, NewSensorId(o), o), machine)
    ensures AfterReplace(inv, machine, source, o, true) == Normalized(ReplaceDraft(inv, source, NewSensorId(o), o))
    ensures source !in ReplaceDraft(inv, source, NewSensorId(o), o).sensors
  {
  }

  /** After a saved replacement the old camera is out and its entry retired, and enrolling anything that
      resolves to it is refused, whatever address it is given. */
  lemma ReplacedStaysOut(inv: Inventory, machine: Machine, source: string, o: Hardware, replaced: Inventory,
                         seen: Hardware, network: string, address: int, location: string, written: bool)
    requires Consistent(inv, machine) && source in inv.sensors && NewSensorId(o) !in inv.sensors
    requires Valid(ReplaceDraft(inv, source, NewSensorId(o), o), machine)
    requires replaced == AfterReplace(inv, machine, source, o, true)
    requires SensorIdFor(replaced.known, seen) == source
    ensures source !in replaced.sensors && Has(replaced.known, source) && StateOf(replaced.known, source) == Retired
    ensures AfterEnroll(replaced, machine, seen, network, address, location, written).sensors == replaced.sensors
  {
    var draft := ReplaceDraft(inv, source, NewSensorId(o), o);
    ReplaceSaves(inv, machine, source, o);
    ReplacedEntry(inv, source, NewSensorId(o), o);
    MarkingKeepsTheRest(draft, source, seen);
    RetiredIsRefused(replaced, machine, seen, network, address, location, written);
  }

  // ---------- a purge forgets one entry and no other ----------

  lemma WithoutForgets(known: seq<Entry>, id: string)
    requires Catalogued(known) && Has(known, id)
    ensures var left := Without(known, id);
            && |left| == |known| - 1
            && (forall k :: 0 <= k < |left| ==> left[k].id != id)
            && (forall e :: e in known && e.id != id ==> e in left)
  {
    var i, left := Find(known, id).value, Without(known, id);
    forall e | e in known && e.id != id
      ensures e in left
    {
      var k :| 0 <= k < |known| && known[k] == e;
      assert left[if k < i then k else k - 1] == e;
    }
  }

  lemma MarkingUnenrolled(known: seq<Entry>, sensors: map<string, Sensor>)
    requires forall k :: 0 <= k < |known| && known[k].id in sensors ==> known[k].state == Enrolled
    ensures Marked(known, sensors) == known
  {
  }

  lemma WithoutStates(inv: Inventory, id: string)
    requires StatesMatch(inv)
    ensures var left := Without(inv.known, id);
            forall k :: 0 <= k < |left| && left[k].id in inv.sensors ==> left[k].state == Enrolled
  {
  }

  lemma PurgeForgets(inv: Inventory, machine: Machine, id: string, purged: Inventory)
    requires Consistent(inv, machine) && id !in inv.sensors && Has(inv.known, id)
    requires Valid(inv.(known := Without(inv.known, id)), machine)
    requires purged == AfterPurge(inv, machine, id, true)
    ensures !Has(purged.known, id) && |purged.known| == |inv.known| - 1
    ensures forall e :: e in inv.known && e.id != id ==> e in purged.known
    ensures purged.sensors == inv.sensors && purged.groups == inv.groups
  {
    WithoutForgets(inv.known, id);
    WithoutStates(inv, id);
    MarkingUnenrolled(Without(inv.known, id), inv.sensors);
  }
}
