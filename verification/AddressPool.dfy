/** Handing out camera addresses from a network's pool. */
module AddressPool {

  import opened Inventories
  import opened Optional

  /** What loading a machine description demands of a network. */
  predicate ValidNetwork(n: Network) {
    && n.subnetFirst <= n.host <= n.subnetLast
    && n.subnetFirst <= n.poolFirst <= n.poolLast <= n.subnetLast
    && !(n.poolFirst <= n.host <= n.poolLast)
    && 1 <= n.maxDevices <= n.poolLast - n.poolFirst + 1
    && 1 <= n.switchedMaxDevices <= n.poolLast - n.poolFirst + 1
    && (n.direct ==> n.maxDevices == 1)
  }

  predicate ValidMachine(machine: Machine) {
    forall id :: id in machine ==> ValidNetwork(machine[id])
  }

  function Used(inv: Inventory, network: string): set<int> {
    set id | id in inv.sensors && inv.sensors[id].network == network :: inv.sensors[id].address
  }

  function Capacity(inv: Inventory, machine: Machine, network: string): nat
    requires network in machine
  {
    var direct := if network in inv.portModes then inv.portModes[network] else machine[network].direct;
    if direct then machine[network].maxDevices else machine[network].switchedMaxDevices
  }

  predicate HasRoom(inv: Inventory, machine: Machine, network: string) {
    network in machine && machine[network].approved && |Used(inv, network)| < Capacity(inv, machine, network)
  }

  function FirstFree(from: int, last: int, used: set<int>): (free: Option<int>)
    ensures free.Some? ==> from <= free.value <= last && free.value !in used
    ensures free.Some? ==> forall x :: from <= x < free.value ==> x in used
    ensures free.None? ==> forall x :: from <= x <= last ==> x in used
    decreases last - from
  {
    if from > last then None
    else if from !in used then Some(from)
    else FirstFree(from + 1, last, used)
  }

  /** `requested` is an address the caller insists on. */
  function Allocation(inv: Inventory, machine: Machine, network: string, requested: Option<int>): Option<int> {
    if !HasRoom(inv, machine, network) then None
    else
      var n := machine[network];
      var used := Used(inv, network);
      match requested
      case None => FirstFree(n.poolFirst, n.poolLast, used)
      case Some(a) =>
        if n.subnetFirst <= a <= n.subnetLast && n.poolFirst <= a <= n.poolLast && a !in used then Some(a) else None
  }

  function CamerasOn(inv: Inventory, network: string): set<string> {
    set id | id in inv.sensors && inv.sensors[id].network == network
  }

  lemma {:induction false} AsManyAddresses(ids: set<string>, sensors: map<string, Sensor>)
    requires forall i :: i in ids ==> i in sensors
    requires forall i, j :: i in ids && j in ids && i != j ==> sensors[i].address != sensors[j].address
    ensures |set i | i in ids :: sensors[i].address| == |ids|
    decreases |ids|
  {
    var addresses := set i | i in ids :: sensors[i].address;
    if ids != {} {
      var x :| x in ids;
      var rest := set i | i in ids - {x} :: sensors[i].address;
      AsManyAddresses(ids - {x}, sensors);
      assert addresses == rest + {sensors[x].address};
      assert sensors[x].address !in rest;
    }
  }

  /** There is room on an approved network exactly while it has fewer cameras than its mode allows: the one set for
      the port, or else the network's own. */
  lemma RoomIsExact(inv: Inventory, machine: Machine, network: string)
    requires DistinctPlaces(inv.sensors, machine) && network != ""
    ensures HasRoom(inv, machine, network) <==>
      && network in machine && machine[network].approved
      && var direct := if network in inv.portModes then inv.portModes[network] else machine[network].direct;
         |CamerasOn(inv, network)| < if direct then machine[network].maxDevices else machine[network].switchedMaxDevices
  {
    var on := CamerasOn(inv, network);
    forall i, j | i in on && j in on && i != j
      ensures inv.sensors[i].address != inv.sensors[j].address
    {
      assert !SamePlace(inv.sensors[i], inv.sensors[j]);
    }
    AsManyAddresses(on, inv.sensors);
    assert Used(inv, network) == set i | i in on :: inv.sensors[i].address;
  }

  /** A pool whose addresses are all used has at least as many uses as addresses, wherever else the used
      ones lie. */
  lemma {:induction false} FullPoolNeedsAsMany(from: int, last: int, used: set<int>)
    requires from <= last + 1 && forall x :: from <= x <= last ==> x in used
    ensures |used| >= last - from + 1
    decreases last - from
  {
    if from <= last {
      FullPoolNeedsAsMany(from + 1, last, used - {from});
    }
  }

  /** Below capacity an automatic allocation always succeeds, and only then; it gives the least free address
      of the pool, which is inside the subnet, is not the host and belongs to no camera. */
  lemma AllocationIsExact(inv: Inventory, machine: Machine, network: string)
    requires ValidMachine(machine)
    ensures var a := Allocation(inv, machine, network, None);
            && (a.Some? <==> HasRoom(inv, machine, network))
            && (a.Some? ==>
                  var n := machine[network];
                  && n.poolFirst <= a.value <= n.poolLast && n.subnetFirst <= a.value <= n.subnetLast && a.value != n.host
                  && (forall x :: n.poolFirst <= x < a.value ==> x in Used(inv, network))
                  && forall id :: id in inv.sensors && inv.sensors[id].network == network ==>
                       inv.sensors[id].address != a.value)
  {
    if HasRoom(inv, machine, network) {
      var n := machine[network];
      assert ValidNetwork(n);
      var a := FirstFree(n.poolFirst, n.poolLast, Used(inv, network));
      if a.None? {
        FullPoolNeedsAsMany(n.poolFirst, n.poolLast, Used(inv, network));
        assert false;
      }
      forall id | id in inv.sensors && inv.sensors[id].network == network
        ensures inv.sensors[id].address != a.value
      {
        assert inv.sensors[id].address in Used(inv, network);
      }
    }
  }

  /** An address asked for by name is granted exactly when there is room and it is a free pool address. */
  lemma RequestedIsExact(inv: Inventory, machine: Machine, network: string, a: int)
    requires ValidMachine(machine)
    ensures Allocation(inv, machine, network, Some(a)).Some? <==>
      && HasRoom(inv, machine, network)
      && machine[network].poolFirst <= a <= machine[network].poolLast
      && forall id :: id in inv.sensors && inv.sensors[id].network == network ==> inv.sensors[id].address != a
  {
    if HasRoom(inv, machine, network) {
      assert ValidNetwork(machine[network]);
      forall id | id in inv.sensors && inv.sensors[id].network == network
        ensures inv.sensors[id].address in Used(inv, network)
      {
      }
    }
  }

  /** Enrolling or moving a camera to the address just allocated cannot be refused for its place. */
  lemma AllocatedPlaceIsAccepted(inv: Inventory, machine: Machine, network: string, requested: Option<int>, id: string,
                                 s: Sensor)
    requires ValidMachine(machine) && DistinctPlaces(inv.sensors, machine)
    requires Allocation(inv, machine, network, requested) == Some(s.address) && s.network == network
    ensures DistinctPlaces(inv.sensors[id := s], machine)
  {
    assert ValidNetwork(machine[network]);
    forall i | i in inv.sensors && inv.sensors[i].network == network
      ensures inv.sensors[i].address != s.address
    {
      assert inv.sensors[i].address in Used(inv, network);
    }
    assert Placed(s, machine);
    var sensors := inv.sensors[id := s];
    forall i, j | i in sensors && j in sensors && i != j
      ensures !SamePlace(sensors[i], sensors[j])
    {
      assert i != id && j != id ==> !SamePlace(inv.sensors[i], inv.sensors[j]);
    }
  }
}
