/** The registry object: each operation edits the inventory in place, then saves it or puts it back. */
module Registries {

  import opened AddressPool
  import opened HardwareIdentity
  import opened Inventories
  import opened Optional

  // ---------- what the walk over the cameras remembers ----------

  function KeysOf(sensors: map<string, Sensor>, met: set<string>): set<HardwareKey> {
    set i | i in met && i in sensors :: KeyOf(sensors[i].hardware)
  }

  function PlacesOf(sensors: map<string, Sensor>, met: set<string>): set<(string, int)> {
    set i | i in met && i in sensors && sensors[i].network != "" :: (sensors[i].network, sensors[i].address)
  }

  predicate SoundSensors(sensors: map<string, Sensor>, met: set<string>, machine: Machine) {
    && (forall i :: i in met ==> i in sensors && RosSafe(i) && Named(sensors[i].hardware) && Placed(sensors[i], machine))
    && (forall i, j :: i in met && j in met && i != j ==>
          KeyOf(sensors[i].hardware) != KeyOf(sensors[j].hardware) && !SamePlace(sensors[i], sensors[j]))
  }

  predicate FitsIn(sensors: map<string, Sensor>, met: set<string>, id: string, machine: Machine)
    requires id in sensors
  {
    var s := sensors[id];
    && RosSafe(id) && Named(s.hardware) && Placed(s, machine)
    && KeyOf(s.hardware) !in KeysOf(sensors, met)
    && (s.network == "" || (s.network, s.address) !in PlacesOf(sensors, met))
  }

  lemma MetGrows(sensors: map<string, Sensor>, met: set<string>, id: string)
    requires id in sensors && id !in met
    ensures KeysOf(sensors, met + {id}) == KeysOf(sensors, met) + {KeyOf(sensors[id].hardware)}
    ensures PlacesOf(sensors, met + {id}) == PlacesOf(sensors, met) +
      if sensors[id].network == "" then {} else {(sensors[id].network, sensors[id].address)}
  {
  }

  lemma FittingIsSound(sensors: map<string, Sensor>, met: set<string>, id: string, machine: Machine)
    requires SoundSensors(sensors, met, machine) && id in sensors && id !in met && FitsIn(sensors, met, id, machine)
    ensures SoundSensors(sensors, met + {id}, machine)
  {
    forall j | j in met
      ensures KeyOf(sensors[j].hardware) != KeyOf(sensors[id].hardware) && !SamePlace(sensors[id], sensors[j])
    {
      assert KeyOf(sensors[j].hardware) in KeysOf(sensors, met);
      assert sensors[j].network != "" ==> (sensors[j].network, sensors[j].address) in PlacesOf(sensors, met);
    }
  }

  /** One more camera is sound when its key and place have not been met, and a camera that does not fit
      spoils the whole inventory. */
  lemma MeetOne(sensors: map<string, Sensor>, met: set<string>, id: string, machine: Machine)
    requires SoundSensors(sensors, met, machine) && id in sensors && id !in met
    ensures FitsIn(sensors, met, id, machine) ==> SoundSensors(sensors, met + {id}, machine)
    ensures ValidSensors(sensors, machine) ==> FitsIn(sensors, met, id, machine)
  {
    if FitsIn(sensors, met, id, machine) {
      FittingIsSound(sensors, met, id, machine);
    }
    if ValidSensors(sensors, machine) {
      ValidFits(sensors, met, id, machine);
    }
  }

  lemma AllSoundIsValid(sensors: map<string, Sensor>, met: set<string>, machine: Machine)
    requires SoundSensors(sensors, met, machine) && met == sensors.Keys
    ensures ValidSensors(sensors, machine)
  {
  }

  lemma ValidFits(sensors: map<string, Sensor>, met: set<string>, id: string, machine: Machine)
    requires ValidSensors(sensors, machine) && id in sensors && id !in met
    ensures FitsIn(sensors, met, id, machine)
  {
    forall i | i in met && i in sensors
      ensures KeyOf(sensors[i].hardware) != KeyOf(sensors[id].hardware) && !SamePlace(sensors[id], sensors[i])
    {
    }
  }

  class Registry {
    const machine: Machine
    var sensors: map<string, Sensor>
    var known: seq<Entry>
    var groups: map<string, Group>
    var portModes: map<string, bool>

    function View(): Inventory
      reads this
    {
      Inventory(sensors, known, groups, portModes)
    }

    constructor (machine: Machine, loaded: Inventory)
      ensures View() == loaded && this.machine == machine
    {
      this.machine := machine;
      sensors, known, groups, portModes := loaded.sensors, loaded.known, loaded.groups, loaded.portModes;
    }

    /** Walks the enrolled cameras, remembering the keys and places already met. */
    method CheckSensors() returns (ok: bool)
      ensures ok <==> ValidSensors(sensors, machine)
    {
      var left := sensors.Keys;
      ghost var met: set<string> := {};
      var keys: set<HardwareKey> := {};
      var places: set<(string, int)> := {};
      while left != {}
        invariant left <= sensors.Keys && met == sensors.Keys - left
        invariant keys == KeysOf(sensors, met) && places == PlacesOf(sensors, met)
        invariant SoundSensors(sensors, met, machine)
        decreases left
      {
        var id :| id in left;
        var s := sensors[id];
        MeetOne(sensors, met, id, machine);
        MetGrows(sensors, met, id);
        if !RosSafe(id) || !Named(s.hardware) || KeyOf(s.hardware) in keys || !Placed(s, machine) {
          return false;
        }
        if s.network != "" {
          if (s.network, s.address) in places {
            return false;
          }
          places := places + {(s.network, s.address)};
        }
        keys := keys + {KeyOf(s.hardware)};
        left := left - {id};
        met := met + {id};
      }
      AllSoundIsValid(sensors, met, machine);
      return true;
    }

    /** Walks the catalogue, remembering driver and serial number. */
    method CheckKnown() returns (ok: bool)
      ensures ok <==> ValidKnown(known)
    {
      var identities: set<(string, string)> := {};
      for i := 0 to |known|
        invariant forall k :: 0 <= k < i ==> RosSafe(known[k].id) && Named(known[k].hardware)
        invariant identities == set k | 0 <= k < i :: (known[k].hardware.provider, known[k].hardware.serial)
        invariant forall j, k :: 0 <= j < k < i ==> !Clash(known[j].hardware, known[k].hardware)
      {
        var h := known[i].hardware;
        if !RosSafe(known[i].id) || !Named(h) || (h.provider, h.serial) in identities {
          return false;
        }
        identities := identities + {(h.provider, h.serial)};
      }
      return true;
    }

    method Check() returns (ok: bool)
      ensures ok <==> Valid(View(), machine)
    {
      var sensorsOk := CheckSensors();
      var knownOk := CheckKnown();
      ok := (forall n :: n in portModes ==> n in machine) && sensorsOk && knownOk
            && Covered(sensors, known) && ValidGroups(groups, sensors);
    }

    /** Validates and writes; on either failure the caller's earlier copy comes back. */
    method SaveOrRestore(previous: Inventory, written: bool) returns (saved: bool)
      modifies this
      ensures View() == Saved(old(View()), previous, machine, written)
      ensures saved <==> written && Valid(old(View()), machine)
      ensures if saved then sensors == old(sensors) else View() == previous
    {
      saved := Check();
      saved := saved && written;
      if saved {
        known := Marked(known, sensors);
      } else {
        sensors, known, groups, portModes := previous.sensors, previous.known, previous.groups, previous.portModes;
      }
    }

    method EnsureKnown(id: string, o: Hardware)
      modifies this`known
      ensures known == Inventories.EnsureKnown(old(known), id, o)
    {
      if !Has(known, id) {
        known := known + [Entry(id, o, Observed)];
      } else {
        var at := Find(known, id).value;
        known := known[at := known[at].(hardware := Refreshed(known[at].hardware, o))];
      }
    }

    /** Refreshes an entry, or adds it, and sets its state. */
    method PutEntry(id: string, o: Hardware, state: State)
      modifies this`known
      ensures known == SetEntry(old(known), id, o, state)
    {
      EnsureKnown(id, o);
      var at := Find(known, id);
      if at.Some? {
        known := known[at.value := known[at.value].(state := state)];
      }
    }

    method RecordObservation(o: Hardware)
      modifies this`known
      ensures View() == AfterRecord(old(View()), o)
    {
      var id := SensorIdFor(known, o);
      var at := Find(known, id);
      var state := if id in sensors then Enrolled else if at.Some? then known[at.value].state else Observed;
      if at.None? {
        known := known + [Entry(id, o, state)];
      } else {
        known := known[at.value := Entry(id, Resighted(known[at.value].hardware, o), state)];
      }
    }

    /** Returns the name of the camera when it is now enrolled. */
    method EnrollSensor(o: Hardware, network: string, address: int, location: string, written: bool)
      returns (enrolled: Option<string>)
      modifies this
      ensures View() == AfterEnroll(old(View()), machine, o, network, address, location, written)
      ensures if enrolled.Some? then enrolled.value in sensors && enrolled.value !in old(sensors)
              else sensors == old(sensors)
    {
      var id := SensorIdFor(known, o);
      if id in sensors {
        return None;
      }
      var retired := Has(known, id) && StateOf(known, id) == Retired;
      if retired {
        EnsureKnown(id, o);
        return None;
      }
      var previous := View();
      PutEntry(id, o, Enrolled);
      sensors := sensors[id := Sensor(o, network, address, if location != "" then location else "unknown")];
      assert View() == EnrollDraft(previous, id, o, network, address, location);
      var saved := SaveOrRestore(previous, written);
      return if saved then Some(id) else None;
    }

    method ReplaceSensor(source: string, o: Hardware, written: bool) returns (replaced: bool)
      modifies this
      ensures View() == AfterReplace(old(View()), machine, source, o, written)
      ensures if replaced then source in old(sensors) && source !in sensors else View() == old(View())
    {
      var id := NewSensorId(o);
      if source !in sensors || id in sensors {
        return false;
      }
      var previous := View();
      SwapSensor(source, id, o);
      assert source !in sensors;
      replaced := SaveOrRestore(previous, written);
    }

    /** Takes one camera out and puts its replacement in its place, in every group too. */
    method SwapSensor(source: string, id: string, o: Hardware)
      requires source in sensors
      modifies this`sensors, this`known, this`groups
      ensures View() == ReplaceDraft(old(View()), source, id, o)
    {
      var was := sensors[source];
      PutEntry(id, o, Enrolled);
      PutEntry(source, was.hardware, Retired);
      SwapPlaces(source, id, was.(hardware := o));
    }

    method SwapPlaces(source: string, id: string, replacement: Sensor)
      modifies this`sensors, this`groups
      ensures sensors == (old(sensors) - {source})[id := replacement]
      ensures groups == RenamedGroups(old(groups), source, id)
    {
      sensors := sensors - {source};
      sensors := sensors[id := replacement];
      groups := RenamedGroups(groups, source, id);
    }

    method MoveTo(id: string, network: string, address: int, written: bool) returns (moved: bool)
      modifies this
      ensures View() == AfterMove(old(View()), machine, id, network, address, written)
      ensures moved ==> id in sensors && sensors[id].network == network && sensors[id].address == address
      ensures !moved ==> View() == old(View())
    {
      if id !in sensors {
        return false;
      }
      var previous := View();
      sensors := sensors[id := sensors[id].(network := network, address := address, location := "unknown")];
      moved := SaveOrRestore(previous, written);
    }

    method ForgetSensor(id: string, written: bool) returns (forgotten: bool)
      modifies this
      ensures View() == AfterForget(old(View()), machine, id, written)
      ensures if forgotten then id in old(sensors) && id !in sensors else View() == old(View())
    {
      if id !in sensors || Grouped(View(), id) {
        return false;
      }
      var previous := View();
      var sensor := sensors[id];
      sensors := sensors - {id};
      PutEntry(id, sensor.hardware, Archived);
      assert View() == ForgetDraft(previous, id);
      forgotten := SaveOrRestore(previous, written);
    }

    method PurgeKnownSensor(id: string, written: bool) returns (purged: bool)
      modifies this
      ensures View() == AfterPurge(old(View()), machine, id, written)
      ensures if purged then |known| + 1 == |old(known)| else View() == old(View())
    {
      if id in sensors || !Has(known, id) {
        return false;
      }
      var previous := View();
      known := Without(known, id);
      purged := SaveOrRestore(previous, written);
    }

    method PutGroup(id: string, group: Group, written: bool) returns (accepted: bool)
      modifies this
      ensures View() == AfterUpsertGroup(old(View()), machine, id, group, written)
      ensures if accepted then id in groups && groups[id] == group else View() == old(View())
    {
      if !RosSafe(id) {
        return false;
      }
      var previous := View();
      groups := groups[id := group];
      accepted := SaveOrRestore(previous, written);
    }

    method RemoveGroup(id: string, written: bool) returns (removed: bool)
      modifies this
      ensures View() == AfterDeleteGroup(old(View()), machine, id, written)
      ensures if removed then id in old(groups) && id !in groups else View() == old(View())
    {
      if id !in groups {
        return false;
      }
      var previous := View();
      groups := groups - {id};
      removed := SaveOrRestore(previous, written);
    }

    method ChangePortMode(network: string, direct: bool, written: bool) returns (changed: bool)
      modifies this
      ensures View() == AfterSetPortMode(old(View()), machine, network, direct, written)
      ensures if changed then network in portModes && portModes[network] == direct else View() == old(View())
    {
      if network !in machine || (direct && |OnNetwork(View(), network)| > 1) {
        return false;
      }
      var previous := View();
      portModes := portModes[network := direct];
      changed := SaveOrRestore(previous, written);
    }

    /** Looks through the pool for the first free address. */
    method Allocate(network: string, requested: Option<int>) returns (address: Option<int>)
      ensures address == Allocation(View(), machine, network, requested)
    {
      if network !in machine || !machine[network].approved {
        return None;
      }
      var n := machine[network];
      var used := Used(View(), network);
      if |used| >= Capacity(View(), machine, network) {
        return None;
      }
      if requested.Some? {
        var a := requested.value;
        if !(n.subnetFirst <= a <= n.subnetLast && n.poolFirst <= a <= n.poolLast) || a in used {
          return None;
        }
        return requested;
      }
      var candidate := n.poolFirst;
      while candidate <= n.poolLast && candidate in used
        invariant FirstFree(n.poolFirst, n.poolLast, used) == FirstFree(candidate, n.poolLast, used)
        decreases n.poolLast - candidate
      {
        candidate := candidate + 1;
      }
      return if candidate <= n.poolLast then Some(candidate) else None;
    }
  }
}
