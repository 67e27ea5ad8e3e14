/** Per-device free and used amounts, in the static-node and the Kubernetes backend.

    Both backends sum the allocations that name a device, set the device's free pool
    to what is left of its capacity, and count the pools of usable devices into the
    accelerator group of the node.  Amounts are integers in MiB and core units. */
module DeviceAccounting {
  import opened Basics
  import opened ResourceTotals

  datatype Pool = Pool(memoryMiB: int, coreUnits: int)

  const NOTHING := Pool(0, 0)
  const FULL_CORES := 100

  datatype Allocation = Allocation(uuid: string, memoryMiB: int, coreUnits: int)

  datatype Device = Device(uuid: string, memoryMiB: int, coreUnits: int, healthy: bool)

  datatype DeviceResource = DeviceResource(uuid: string, healthy: bool, allocatable: Pool, available: Pool)

  // Sums of allocations

  /** The sum of all allocations that name `uuid`. */
  function Used(allocations: seq<Allocation>, uuid: string): Pool
  {
    if allocations == [] then NOTHING
    else
      var last := allocations[|allocations| - 1];
      var front := Used(allocations[..|allocations| - 1], uuid);
      if last.uuid == uuid then Pool(front.memoryMiB + last.memoryMiB, front.coreUnits + last.coreUnits) else front
  }

  predicate Named(allocations: seq<Allocation>, uuid: string)
  {
    exists i :: 0 <= i < |allocations| && allocations[i].uuid == uuid
  }

  function Flat(lists: seq<seq<Allocation>>): seq<Allocation>
  {
    if lists == [] then [] else Flat(lists[..|lists| - 1]) + lists[|lists| - 1]
  }

  type Usage = map<string, Pool>

  /** `usage` has an entry with the right sum for exactly the devices named. */
  ghost predicate Accounts(usage: Usage, allocations: seq<Allocation>)
  {
    forall uuid ::
      && (uuid in usage <==> Named(allocations, uuid))
      && (uuid in usage ==> usage[uuid] == Used(allocations, uuid))
  }

  function Noted(usage: Usage, a: Allocation): Usage
  {
    var was := if a.uuid in usage then usage[a.uuid] else NOTHING;
    usage[a.uuid := Pool(was.memoryMiB + a.memoryMiB, was.coreUnits + a.coreUnits)]
  }

  lemma NamedAppend(front: seq<Allocation>, a: Allocation, uuid: string)
    ensures Named(front + [a], uuid) <==> Named(front, uuid) || a.uuid == uuid
  {
    if Named(front, uuid) {
      var i :| 0 <= i < |front| && front[i].uuid == uuid;
      assert (front + [a])[i].uuid == uuid;
    }
    if a.uuid == uuid {
      assert (front + [a])[|front|].uuid == uuid;
    }
  }

  lemma {:induction false} UsedUnnamed(allocations: seq<Allocation>, uuid: string)
    requires !Named(allocations, uuid)
    ensures Used(allocations, uuid) == NOTHING
  {
    if allocations != [] {
      var front, last := allocations[..|allocations| - 1], allocations[|allocations| - 1];
      assert allocations == front + [last];
      NamedAppend(front, last, uuid);
      UsedUnnamed(front, uuid);
    }
  }

  lemma AccountsNext(usage: Usage, front: seq<Allocation>, a: Allocation)
    requires Accounts(usage, front)
    ensures Accounts(Noted(usage, a), front + [a])
  {
    forall uuid
      ensures uuid in Noted(usage, a) <==> Named(front + [a], uuid)
      ensures uuid in Noted(usage, a) ==> Noted(usage, a)[uuid] == Used(front + [a], uuid)
    {
      assert (front + [a])[..|front|] == front;
      NamedAppend(front, a, uuid);
      if !Named(front, uuid) {
        UsedUnnamed(front, uuid);
      }
    }
  }

  /** Adds one list of allocations. */
  method NoteAll(start: Usage, ghost before: seq<Allocation>, list: seq<Allocation>) returns (usage: Usage)
    requires Accounts(start, before)
    ensures Accounts(usage, before + list)
  {
    usage := start;
    assert before + list[..0] == before;
    for i := 0 to |list|
      invariant Accounts(usage, before + list[..i])
    {
      AccountsNext(usage, before + list[..i], list[i]);
      assert before + list[..i + 1] == before + list[..i] + [list[i]];
      usage := Noted(usage, list[i]);
    }
    assert list[..|list|] == list;
  }

  function WithUuid(list: seq<Allocation>): seq<Allocation>
  {
    if list == [] then []
    else
      var front := WithUuid(list[..|list| - 1]);
      if list[|list| - 1].uuid == "" then front else front + [list[|list| - 1]]
  }

  function EachWithUuid(lists: seq<seq<Allocation>>): seq<seq<Allocation>>
  {
    seq(|lists|, i requires 0 <= i < |lists| => WithUuid(lists[i]))
  }

  method DropUnnamed(list: seq<Allocation>) returns (kept: seq<Allocation>)
    ensures kept == WithUuid(list)
  {
    kept := [];
    for i := 0 to |list|
      invariant kept == WithUuid(list[..i])
    {
      assert list[..i + 1][..i] == list[..i];
      if list[i].uuid == "" {
        continue;
      }
      kept := kept + [list[i]];
    }
    assert list[..|list|] == list;
  }

  /** Static backend: allocations without a UUID are passed over. */
  method StaticUsage(statuses: seq<seq<Allocation>>) returns (usage: Usage)
    ensures Accounts(usage, Flat(EachWithUuid(statuses)))
  {
    usage := map[];
    ghost var lists := EachWithUuid(statuses);
    for i := 0 to |statuses|
      invariant Accounts(usage, Flat(lists[..i]))
    {
      var kept := DropUnnamed(statuses[i]);
      assert lists[..i + 1][..i] == lists[..i];
      usage := NoteAll(usage, Flat(lists[..i]), kept);
    }
    assert lists[..|statuses|] == lists;
  }

  function Readable(pods: seq<Option<seq<Allocation>>>): seq<seq<Allocation>>
  {
    seq(|pods|, i requires 0 <= i < |pods| => pods[i].GetOr([]))
  }

  /** Kubernetes backend: a pod whose annotation does not parse is passed over. */
  method KubernetesUsage(pods: seq<Option<seq<Allocation>>>) returns (usage: Usage)
    ensures Accounts(usage, Flat(Readable(pods)))
  {
    usage := map[];
    ghost var lists := Readable(pods);
    for i := 0 to |pods|
      invariant Accounts(usage, Flat(lists[..i]))
    {
      assert lists[..i + 1][..i] == lists[..i];
      if pods[i].None? {
        assert Flat(lists[..i + 1]) == Flat(lists[..i]);
        continue;
      }
      usage := NoteAll(usage, Flat(lists[..i]), pods[i].value);
    }
    assert lists[..|pods|] == lists;
  }

  // Device pools

  function Left(capacity: int, used: int): (r: int)
    ensures r >= 0
    ensures r + used == capacity <==> used <= capacity
    ensures used >= capacity ==> r == 0
  {
    if capacity > used then capacity - used else 0
  }

  /** A device nobody names is free; one named with 0/0 is taken whole. */
  function StaticFree(memoryMiB: int, allocation: Option<Pool>): Pool
  {
    match allocation
    case None => Pool(memoryMiB, FULL_CORES)
    case Some(a) =>
      if a == NOTHING then NOTHING else Pool(Left(memoryMiB, a.memoryMiB), Left(FULL_CORES, a.coreUnits))
  }

  function StaticResource(d: Device, allocation: Option<Pool>): DeviceResource
  {
    if d.healthy
    then DeviceResource(d.uuid, true, Pool(d.memoryMiB, FULL_CORES), StaticFree(d.memoryMiB, allocation))
    else DeviceResource(d.uuid, false, NOTHING, NOTHING)
  }

  function KubernetesCapacity(d: Device): Pool
  {
    Pool(d.memoryMiB, if d.coreUnits == 0 then FULL_CORES else d.coreUnits)
  }

  function KubernetesResource(d: Device, used: Pool): DeviceResource
  {
    var capacity := KubernetesCapacity(d);
    if d.healthy
    then DeviceResource(d.uuid, true, capacity,
                        Pool(Left(capacity.memoryMiB, used.memoryMiB), Left(capacity.coreUnits, used.coreUnits)))
    else DeviceResource(d.uuid, false, NOTHING, NOTHING)
  }

  predicate AtMost(a: Pool, b: Pool)
  {
    a.memoryMiB <= b.memoryMiB && a.coreUnits <= b.coreUnits
  }

  /** Free never exceeds capacity exactly when no amount involved is negative. */
  lemma StaticFreeWithinCapacity(d: Device, allocation: Option<Pool>)
    ensures var r := StaticResource(d, allocation);
            AtMost(r.available, r.allocatable) <==>
              (d.healthy && allocation.Some? ==>
                 d.memoryMiB >= 0 && allocation.value.memoryMiB >= 0 && allocation.value.coreUnits >= 0)
  {
  }

  lemma KubernetesFreeWithinCapacity(d: Device, used: Pool)
    ensures var r := KubernetesResource(d, used);
            AtMost(r.available, r.allocatable) <==>
              (d.healthy ==> d.memoryMiB >= 0 && d.coreUnits >= 0 && used.memoryMiB >= 0 && used.coreUnits >= 0)
  {
  }

  function PoolPlus(a: Pool, b: Pool): Pool
  {
    Pool(a.memoryMiB + b.memoryMiB, a.coreUnits + b.coreUnits)
  }

  /** An unnamed device is all free and one named with nothing is all taken; otherwise
      free and used make up the capacity exactly when the use fits. */
  lemma StaticConserves(d: Device, allocation: Option<Pool>)
    ensures var r := StaticResource(d, allocation);
            && r.uuid == d.uuid && r.healthy == d.healthy
            && (!d.healthy ==> r.available == r.allocatable == NOTHING)
            && (d.healthy ==>
                  && r.allocatable == Pool(d.memoryMiB, 100)
                  && (allocation.None? ==> r.available == r.allocatable)
                  && (allocation == Some(NOTHING) ==> r.available == NOTHING)
                  && (allocation.Some? && allocation.value != NOTHING ==>
                        (PoolPlus(r.available, allocation.value) == r.allocatable <==>
                           AtMost(allocation.value, r.allocatable))))
  {
  }

  /** The same here, where a device that states no core units has all of them and nothing
      allocated means all free. */
  lemma KubernetesConserves(d: Device, used: Pool)
    ensures var r := KubernetesResource(d, used);
            && r.uuid == d.uuid && r.healthy == d.healthy
            && (!d.healthy ==> r.available == r.allocatable == NOTHING)
            && (d.healthy ==>
                  && r.allocatable.memoryMiB == d.memoryMiB
                  && (d.coreUnits == 0 ==> r.allocatable.coreUnits == 100)
                  && (d.coreUnits != 0 ==> r.allocatable.coreUnits == d.coreUnits)
                  && (PoolPlus(r.available, used) == r.allocatable <==> AtMost(used, r.allocatable)))
  {
  }

  // Group totals

  function Sum(pools: seq<Pool>): Pool
  {
    if pools == [] then NOTHING
    else
      var front, last := Sum(pools[..|pools| - 1]), pools[|pools| - 1];
      Pool(front.memoryMiB + last.memoryMiB, front.coreUnits + last.coreUnits)
  }

  function Whole(pools: seq<Pool>, slot: Slot): Amount
  {
    match slot
    case Quantity => Some(|pools| as real)
    case MemoryMiB => Some(Sum(pools).memoryMiB as real)
    case CoreUnits => Some(Sum(pools).coreUnits as real)
  }

  /** What a group shows that counted exactly `pools`, all under one product. */
  function Tally(product: string, pools: seq<Pool>, cell: Cell): Amount
  {
    match cell
    case TypeQuantity => Some(|pools| as real)
    case ProductCount(p) => if p == product && pools != [] then Some(|pools| as real) else None
    case OfProduct(p, slot) => if p == product && pools != [] then Whole(pools, slot) else None
  }

  lemma WholeNext(pools: seq<Pool>, pool: Pool, slot: Slot)
    ensures Whole(pools + [pool], slot) == Plus(Whole(pools, slot), Whole([pool], slot))
  {
    SumNext(pools, pool);
    SumNext([], pool);
    assert [] + [pool] == [pool];
  }

  lemma SumNext(pools: seq<Pool>, pool: Pool)
    ensures Sum(pools + [pool])
         == Pool(Sum(pools).memoryMiB + pool.memoryMiB, Sum(pools).coreUnits + pool.coreUnits)
  {
    assert (pools + [pool])[..|pools|] == pools;
  }

  lemma TallyNext(product: string, pools: seq<Pool>, pool: Pool, cell: Cell)
    ensures Tally(product, pools + [pool], cell) == Plus(Tally(product, pools, cell), Tally(product, [pool], cell))
  {
    if cell.OfProduct? {
      WholeNext(pools, pool, cell.slot);
      assert pools == [] ==> pools + [pool] == [pool];
    }
  }

  method AddPool(p: ResourceTotals.Product, pool: Pool)
    modifies p.Repr()
    ensures fresh(p.Repr() - old(p.Repr()))
    ensures forall slot :: p.Read(slot) == Plus(old(p.Read(slot)), Whole([pool], slot))
  {
    SumNext([], pool);
    assert [] + [pool] == [pool];
    p.quantity := p.quantity + 1.0;
    if p.virtualization == null {
      p.virtualization := new Virtualization();
    }
    p.virtualization.memoryMiB := p.virtualization.memoryMiB + pool.memoryMiB;
    p.virtualization.coreUnits := p.virtualization.coreUnits + pool.coreUnits;
  }

  method AddPoolAt(group: Group, product: string, pool: Pool)
    requires group.Valid()
    modifies group.footprint
    ensures group.Valid() && fresh(group.footprint - old(group.footprint))
    ensures group.quantity == old(group.quantity) && group.productGroups == old(group.productGroups)
    ensures forall slot :: group.ProductAt(product, slot) == Plus(old(group.ProductAt(product, slot)), Whole([pool], slot))
    ensures forall p, slot | p != product :: group.ProductAt(p, slot) == old(group.ProductAt(p, slot))
  {
    var target := group.EnsureProduct(product);
    AddPool(target, pool);
    group.footprint := group.footprint + target.Repr();
  }

  /** Counts one device under `product`. */
  method AddDevice(group: Group, product: string, pool: Pool)
    requires group.Valid()
    modifies group.footprint
    ensures group.Valid() && fresh(group.footprint - old(group.footprint))
    ensures forall cell :: group.Read(cell) == Plus(old(group.Read(cell)), Tally(product, [pool], cell))
  {
    group.quantity := group.quantity + 1.0;
    group.productGroups := group.productGroups[product :=
      (if product in group.productGroups then group.productGroups[product] else 0.0) + 1.0];
    AddPoolAt(group, product, pool);
  }

  ghost predicate Tallies(group: Group, product: string, pools: seq<Pool>)
    reads group, group.footprint
  {
    group.Valid() && forall cell :: group.Read(cell) == Tally(product, pools, cell)
  }

  method CountDevice(group: Group, product: string, ghost pools: seq<Pool>, pool: Pool)
    requires Tallies(group, product, pools)
    modifies group.footprint
    ensures Tallies(group, product, pools + [pool]) && fresh(group.footprint - old(group.footprint))
  {
    AddDevice(group, product, pool);
    forall cell ensures group.Read(cell) == Tally(product, pools + [pool], cell) {
      TallyNext(product, pools, pool, cell);
    }
  }

  // Node totals

  predicate HasCapacity(pool: Pool)
  {
    pool.memoryMiB > 0 && pool.coreUnits > 0
  }

  function AllocatablePools(resources: seq<DeviceResource>): seq<Pool>
  {
    if resources == [] then []
    else
      var front, last := AllocatablePools(resources[..|resources| - 1]), resources[|resources| - 1];
      if last.healthy then front + [last.allocatable] else front
  }

  /** A device with nothing left on one of its two dimensions is not counted. */
  function AvailablePools(resources: seq<DeviceResource>): seq<Pool>
  {
    if resources == [] then []
    else
      var front, last := AvailablePools(resources[..|resources| - 1]), resources[|resources| - 1];
      if last.healthy && HasCapacity(last.available) then front + [last.available] else front
  }

  /** The devices that count on either side, by position. */
  function Usable(resources: seq<DeviceResource>): set<nat>
  {
    set i | 0 <= i < |resources| && resources[i].healthy
            && resources[i].available.memoryMiB > 0 && resources[i].available.coreUnits > 0
  }

  function Healthy(resources: seq<DeviceResource>): set<nat>
  {
    set i | 0 <= i < |resources| && resources[i].healthy
  }

  /** The allocatable side counts the healthy devices, the available side those of them
      with memory and cores left. */
  lemma {:induction false} CountsAreExact(resources: seq<DeviceResource>)
    ensures |AllocatablePools(resources)| == |Healthy(resources)|
    ensures |AvailablePools(resources)| == |Usable(resources)|
  {
    if resources != [] {
      var n := |resources| - 1;
      var front := resources[..n];
      assert resources == front + [resources[n]];
      CountsAreExact(front);
      HealthyNext(front, resources[n]);
      UsableNext(front, resources[n]);
    }
  }

  lemma HealthyNext(front: seq<DeviceResource>, r: DeviceResource)
    ensures |Healthy(front + [r])| == |Healthy(front)| + if r.healthy then 1 else 0
  {
    var more := if r.healthy then {|front|} else {};
    assert Healthy(front + [r]) == Healthy(front) + more;
  }

  lemma UsableNext(front: seq<DeviceResource>, r: DeviceResource)
    ensures |Usable(front + [r])|
         == |Usable(front)| + if r.healthy && r.available.memoryMiB > 0 && r.available.coreUnits > 0 then 1 else 0
  {
    var more := if r.healthy && r.available.memoryMiB > 0 && r.available.coreUnits > 0 then {|front|} else {};
    assert Usable(front + [r]) == Usable(front) + more;
  }

  /** If every device has used up one of its dimensions, nothing is offered. */
  lemma UsedUpOffersNothing(resources: seq<DeviceResource>)
    requires forall r :: r in resources ==> r.available.memoryMiB == 0 || r.available.coreUnits == 0
    ensures AvailablePools(resources) == []
  {
    CountsAreExact(resources);
    assert Usable(resources) == {};
  }

  lemma PoolsNext(resources: seq<DeviceResource>, r: DeviceResource)
    ensures AllocatablePools(resources + [r])
         == AllocatablePools(resources) + if r.healthy then [r.allocatable] else []
    ensures AvailablePools(resources + [r])
         == AvailablePools(resources) + if r.healthy && HasCapacity(r.available) then [r.available] else []
  {
    assert (resources + [r])[..|resources|] == resources;
  }

  /** Counts one surveyed device on both sides. */
  method CountResource(allocatable: Group, available: Group, product: string,
                       ghost resources: seq<DeviceResource>, r: DeviceResource)
    requires allocatable.footprint !! available.footprint
    requires Tallies(allocatable, product, AllocatablePools(resources))
    requires Tallies(available, product, AvailablePools(resources))
    modifies allocatable.footprint, available.footprint
    ensures fresh(allocatable.footprint - old(allocatable.footprint))
    ensures fresh(available.footprint - old(available.footprint))
    ensures allocatable.footprint !! available.footprint
    ensures Tallies(allocatable, product, AllocatablePools(resources + [r]))
    ensures Tallies(available, product, AvailablePools(resources + [r]))
  {
    PoolsNext(resources, r);
    if r.healthy {
      CountDevice(allocatable, product, AllocatablePools(resources), r.allocatable);
    }
    if r.healthy && HasCapacity(r.available) {
      CountDevice(available, product, AvailablePools(resources), r.available);
    }
  }

  function KubernetesSurvey(devices: seq<Device>, allocations: seq<Allocation>): seq<DeviceResource>
  {
    if devices == [] then []
    else
      var last := devices[|devices| - 1];
      KubernetesSurvey(devices[..|devices| - 1], allocations) + [KubernetesResource(last, Used(allocations, last.uuid))]
  }

  method NewGroup(product: string) returns (group: Group)
    ensures fresh(group.footprint) && group.footprint == {group}
    ensures Tallies(group, product, [])
  {
    group := new Group();
  }

  method BuildKubernetesResources(devices: seq<Device>, usage: Usage, product: string, ghost allocations: seq<Allocation>)
    returns (resources: seq<DeviceResource>, allocatable: Group, available: Group)
    requires Accounts(usage, allocations)
    ensures resources == KubernetesSurvey(devices, allocations)
    ensures allocatable.Closed() && allocatable.Read(TypeQuantity) == Some(|Healthy(resources)| as real)
    ensures available.Closed() && available.Read(TypeQuantity) == Some(|Usable(resources)| as real)
    ensures fresh(allocatable.footprint) && fresh(available.footprint)
    ensures Tallies(allocatable, product, AllocatablePools(resources))
    ensures Tallies(available, product, AvailablePools(resources))
  {
    allocatable := NewGroup(product);
    available := NewGroup(product);
    resources := [];
    for i := 0 to |devices|
      invariant resources == KubernetesSurvey(devices[..i], allocations)
      invariant fresh(allocatable.footprint) && fresh(available.footprint)
      invariant allocatable.footprint !! available.footprint
      invariant Tallies(allocatable, product, AllocatablePools(resources))
      invariant Tallies(available, product, AvailablePools(resources))
    {
      var d := devices[i];
      assert devices[..i + 1][..i] == devices[..i];
      if !Named(allocations, d.uuid) { UsedUnnamed(allocations, d.uuid); }
      var r := KubernetesResource(d, if d.uuid in usage then usage[d.uuid] else NOTHING);
      CountResource(allocatable, available, product, resources, r);
      resources := resources + [r];
    }
    assert devices[..|devices|] == devices;
    CountsAreExact(resources);
  }

  function Lookup(allocations: seq<Allocation>, uuid: string): Option<Pool>
  {
    if Named(allocations, uuid) then Some(Used(allocations, uuid)) else None
  }

  /** Devices without a UUID are passed over. */
  function StaticSurvey(devices: seq<Device>, allocations: seq<Allocation>): seq<DeviceResource>
  {
    if devices == [] then []
    else
      var front, last := StaticSurvey(devices[..|devices| - 1], allocations), devices[|devices| - 1];
      if last.uuid == "" then front else front + [StaticResource(last, Lookup(allocations, last.uuid))]
  }

  ghost function FootprintOf(group: Group?): set<object>
    reads group
  {
    if group == null then {} else group.footprint
  }

  /** A group that comes into being with the first pool it counts. */
  ghost predicate TalliesIfAny(group: Group?, product: string, pools: seq<Pool>)
    reads group, FootprintOf(group)
  {
    if group == null then pools == [] else pools != [] && Tallies(group, product, pools)
  }

  method CountStaticDevice(group: Group?, product: string, ghost pools: seq<Pool>, pool: Pool) returns (counted: Group)
    requires TalliesIfAny(group, product, pools)
    modifies FootprintOf(group)
    ensures TalliesIfAny(counted, product, pools + [pool])
    ensures fresh(FootprintOf(counted) - old(FootprintOf(group)))
  {
    if group == null {
      assert pools + [pool] == [] + [pool];
      counted := NewGroup(product);
      CountDevice(counted, product, [], pool);
    } else {
      CountDevice(group, product, pools, pool);
      counted := group;
    }
  }

  method CountStaticResource(allocatable: Group?, available: Group?, product: string,
                             ghost resources: seq<DeviceResource>, r: DeviceResource)
    returns (allocatable': Group?, available': Group?)
    requires FootprintOf(allocatable) !! FootprintOf(available)
    requires TalliesIfAny(allocatable, product, AllocatablePools(resources))
    requires TalliesIfAny(available, product, AvailablePools(resources))
    modifies FootprintOf(allocatable), FootprintOf(available)
    ensures fresh(FootprintOf(allocatable') - old(FootprintOf(allocatable)))
    ensures fresh(FootprintOf(available') - old(FootprintOf(available)))
    ensures FootprintOf(allocatable') !! FootprintOf(available')
    ensures TalliesIfAny(allocatable', product, AllocatablePools(resources + [r]))
    ensures TalliesIfAny(available', product, AvailablePools(resources + [r]))
  {
    allocatable', available' := allocatable, available;
    PoolsNext(resources, r);
    if r.healthy {
      allocatable' := CountStaticDevice(allocatable, product, AllocatablePools(resources), r.allocatable);
    }
    if r.healthy && HasCapacity(r.available) {
      available' := CountStaticDevice(available, product, AvailablePools(resources), r.available);
    }
  }

  method BuildStaticResources(devices: seq<Device>, usage: Usage, product: string, ghost allocations: seq<Allocation>)
    returns (resources: seq<DeviceResource>, allocatable: Group?, available: Group?)
    requires Accounts(usage, allocations)
    ensures resources == StaticSurvey(devices, allocations)
    ensures allocatable == null <==> Healthy(resources) == {}
    ensures available == null <==> Usable(resources) == {}
    ensures allocatable != null ==> allocatable.Closed() && allocatable.Read(TypeQuantity) == Some(|Healthy(resources)| as real)
    ensures available != null ==> available.Closed() && available.Read(TypeQuantity) == Some(|Usable(resources)| as real)
    ensures fresh(FootprintOf(allocatable)) && fresh(FootprintOf(available))
    ensures TalliesIfAny(allocatable, product, AllocatablePools(resources))
    ensures TalliesIfAny(available, product, AvailablePools(resources))
  {
    allocatable, available := null, null;
    resources := [];
    for i := 0 to |devices|
      invariant resources == StaticSurvey(devices[..i], allocations)
      invariant fresh(FootprintOf(allocatable)) && fresh(FootprintOf(available))
      invariant FootprintOf(allocatable) !! FootprintOf(available)
      invariant TalliesIfAny(allocatable, product, AllocatablePools(resources))
      invariant TalliesIfAny(available, product, AvailablePools(resources))
    {
      var d := devices[i];
      assert devices[..i + 1][..i] == devices[..i];
      if d.uuid == "" {
        continue;
      }
      var r := StaticResource(d, if d.uuid in usage then Some(usage[d.uuid]) else None);
      allocatable, available := CountStaticResource(allocatable, available, product, resources, r);
      resources := resources + [r];
    }
    assert devices[..|devices|] == devices;
    CountsAreExact(resources);
  }

  method SetQuantityAt(group: Group, product: string, quantity: real)
    requires group.Valid()
    modifies group.footprint
    ensures group.Valid() && fresh(group.footprint - old(group.footprint))
    ensures group.quantity == old(group.quantity) && group.productGroups == old(group.productGroups)
    ensures forall slot :: group.ProductAt(product, slot)
                        == if slot.Quantity? then Some(quantity) else old(group.ProductAt(product, slot))
    ensures forall p, slot | p != product :: group.ProductAt(p, slot) == old(group.ProductAt(p, slot))
  {
    var target := group.EnsureProduct(product);
    target.SetQuantity(quantity);
  }

  method SetQuantities(group: Group, product: string, quantity: real, productQuantity: real)
    requires group.Valid()
    modifies group.footprint
    ensures group.Valid() && fresh(group.footprint - old(group.footprint))
    ensures group.Read(TypeQuantity) == Some(quantity)
    ensures forall p :: group.Read(ProductCount(p))
                     == if p == product then Some(productQuantity) else old(group.Read(ProductCount(p)))
    ensures forall p, slot :: group.Read(OfProduct(p, slot))
                           == if p == product && slot.Quantity? then Some(productQuantity)
                              else old(group.Read(OfProduct(p, slot)))
  {
    group.quantity := quantity;
    group.productGroups := group.productGroups[product := productQuantity];
    SetQuantityAt(group, product, productQuantity);
  }

  /** How much of a product a record reports: its product count, else the product's own
      quantity, else that of the whole type. */
  ghost function ReportedQuantity(base: Group, product: string): Amount
    requires base.Closed()
    reads base, base.footprint
  {
    if base.Read(ProductCount(product)).Some? then base.Read(ProductCount(product))
    else if base.Read(OfProduct(product, Quantity)).Some? then base.Read(OfProduct(product, Quantity))
    else base.Read(TypeQuantity)
  }

  method BaseQuantity(base: Group, product: string) returns (quantity: real)
    requires base.Closed()
    ensures Some(quantity) == ReportedQuantity(base, product)
  {
    if product in base.productGroups {
      return base.productGroups[product];
    }
    if product in base.products && base.products[product] != null {
      return base.products[product].quantity;
    }
    quantity := base.quantity;
  }

  ghost function ReadIfAny(group: Group?, cell: Cell): Amount
    requires group != null ==> group.Closed()
    reads group, if group == null then {} else group.footprint
  {
    if group == null then None else group.Read(cell)
  }

  /** The static backend then takes the quantities from the Ray dashboard's record, if
      that has the type, creating the group where no device was counted; every device
      amount stays as counted. */
  method CompleteQuantity(group: Group?, base: Group?, product: string) returns (completed: Group?)
    requires group != null ==> group.Valid()
    requires base != null ==> base.Closed() && base.footprint !! FootprintOf(group)
    modifies FootprintOf(group)
    ensures completed != null ==> completed.Valid()
    ensures base == null ==> completed == group && forall cell :: ReadIfAny(completed, cell) == old(ReadIfAny(group, cell))
    ensures base != null ==>
              && completed != null && completed.Valid() && fresh(completed.footprint - old(FootprintOf(group)))
              && completed.Read(TypeQuantity) == old(base.Read(TypeQuantity))
              && (forall p :: completed.Read(ProductCount(p))
                           == if p == product then old(ReportedQuantity(base, product))
                              else old(ReadIfAny(group, ProductCount(p))))
              && (forall p, slot :: completed.Read(OfProduct(p, slot))
                                 == if p == product && slot.Quantity? then old(ReportedQuantity(base, product))
                                    else old(ReadIfAny(group, OfProduct(p, slot))))
  {
    completed := group;
    if base != null {
      var productQuantity := BaseQuantity(base, product);
      if group == null {
        completed := new Group();
      }
      SetQuantities(completed, product, base.quantity, productQuantity);
    }
  }

  function ProductNames(group: Group): set<string>
    reads group
  {
    (group.productGroups.Keys + group.products.Keys) - {""}
  }

  method ReplaceProductAt(group: Group, product: string, quantity: real, source: ResourceTotals.Product?)
    requires group.Valid() && (source != null ==> source.Repr() !! group.footprint)
    modifies group.footprint
    ensures group.Valid() && fresh(group.footprint - old(group.footprint))
    ensures group.quantity == old(group.quantity) && group.productGroups == old(group.productGroups)
    ensures forall slot :: group.ProductAt(product, slot) == if slot.Quantity? then Some(quantity)
                                                             else if source == null then None
                                                             else old(source.Read(slot))
    ensures forall p, slot | p != product :: group.ProductAt(p, slot) == old(group.ProductAt(p, slot))
  {
    var target := group.EnsureProduct(product);
    target.Replace(quantity, source);
    group.footprint := group.footprint + target.Repr();
  }

  /** What an overwritten product shows. */
  ghost function Overwritten(source: Group, product: string, slot: Slot): Amount
    requires source.Closed()
    reads source, source.footprint
  {
    if slot.Quantity? then Some(CountAt(source.productGroups, product).GetOr(0.0)) else source.ProductAt(product, slot)
  }

  method ReplaceProductFrom(target: Group, source: Group, product: string)
    requires target.Valid() && source.Closed() && source.footprint !! target.footprint
    modifies target.footprint
    ensures target.Valid() && fresh(target.footprint - old(target.footprint))
    ensures target.quantity == old(target.quantity)
    ensures forall p :: CountAt(target.productGroups, p)
                     == if p == product then Some(CountAt(source.productGroups, p).GetOr(0.0))
                        else old(CountAt(target.productGroups, p))
    ensures forall slot :: target.ProductAt(product, slot) == old(Overwritten(source, product, slot))
    ensures forall p, slot | p != product :: target.ProductAt(p, slot) == old(target.ProductAt(p, slot))
  {
    var quantity := if product in source.productGroups then source.productGroups[product] else 0.0;
    target.productGroups := target.productGroups[product := quantity];
    ReplaceProductAt(target, product, quantity, if product in source.products then source.products[product] else null);
  }

  method ReplaceProducts(target: Group, source: Group, names: set<string>)
    requires target.Valid() && source.Closed() && source.footprint !! target.footprint
    modifies target.footprint
    ensures target.Valid() && fresh(target.footprint - old(target.footprint))
    ensures target.quantity == old(target.quantity)
    ensures forall p :: CountAt(target.productGroups, p)
                     == if p in names then Some(CountAt(source.productGroups, p).GetOr(0.0))
                        else old(CountAt(target.productGroups, p))
    ensures forall p, slot | p in names :: target.ProductAt(p, slot) == old(Overwritten(source, p, slot))
    ensures forall p, slot | p !in names :: target.ProductAt(p, slot) == old(target.ProductAt(p, slot))
  {
    var todo := names;
    while todo != {}
      invariant todo <= names
      invariant target.Valid() && fresh(target.footprint - old(target.footprint))
      invariant target.quantity == old(target.quantity)
      invariant forall p :: CountAt(target.productGroups, p)
                         == if p in names && p !in todo then Some(CountAt(source.productGroups, p).GetOr(0.0))
                            else old(CountAt(target.productGroups, p))
      invariant forall p, slot | p in names && p !in todo :: target.ProductAt(p, slot) == old(Overwritten(source, p, slot))
      invariant forall p, slot | p !in names || p in todo :: target.ProductAt(p, slot) == old(target.ProductAt(p, slot))
      decreases |todo|
    {
      var p :| p in todo;
      ReplaceProductFrom(target, source, p);
      todo := todo - {p};
    }
  }

  /** The Kubernetes backend overwrites a base group with the device-level one: every
      product either side names shows the source's numbers, in objects the two do not
      share. */
  method ReplaceGroup(target: Group, source: Group)
    requires target.Valid() && source.Closed() && source.footprint !! target.footprint
    modifies target.footprint
    ensures target.Valid() && fresh(target.footprint - old(target.footprint))
    ensures target.quantity == source.quantity
    ensures var names := old(set p | p in target.productGroups.Keys + target.products.Keys
                                          + source.productGroups.Keys + source.products.Keys && p != "");
            && (forall p :: CountAt(target.productGroups, p)
                         == if p in names then Some(CountAt(source.productGroups, p).GetOr(0.0))
                            else old(CountAt(target.productGroups, p)))
            && (forall p, slot | p in names :: target.ProductAt(p, slot) == old(Overwritten(source, p, slot)))
            && (forall p, slot | p !in names :: target.ProductAt(p, slot) == old(target.ProductAt(p, slot)))
  {
    var names := ProductNames(target) + ProductNames(source);
    target.quantity := source.quantity;
    ReplaceProducts(target, source, names);
  }

  // Soundness

  lemma {:induction false} AvailableWithinAllocatable(resources: seq<DeviceResource>)
    requires forall r :: r in resources ==> AtMost(r.available, r.allocatable) && AtMost(NOTHING, r.allocatable)
    ensures AtMost(Sum(AvailablePools(resources)), Sum(AllocatablePools(resources)))
  {
    if resources != [] {
      var front, last := resources[..|resources| - 1], resources[|resources| - 1];
      assert resources == front + [last];
      AvailableWithinAllocatable(front);
      PoolsNext(front, last);
      SumNext(AvailablePools(front), last.available);
      SumNext(AllocatablePools(front), last.allocatable);
    }
  }

  predicate NonNegative(allocations: seq<Allocation>)
  {
    forall a :: a in allocations ==> a.memoryMiB >= 0 && a.coreUnits >= 0
  }

  lemma {:induction false} UsedNonNegative(allocations: seq<Allocation>, uuid: string)
    requires NonNegative(allocations)
    ensures AtMost(NOTHING, Used(allocations, uuid))
  {
    if allocations != [] {
      UsedNonNegative(allocations[..|allocations| - 1], uuid);
    }
  }

  ghost predicate Sound(resources: seq<DeviceResource>)
  {
    && (forall r :: r in resources ==> AtMost(NOTHING, r.available) && AtMost(r.available, r.allocatable))
    && (forall r :: r in resources && !r.healthy ==> r.allocatable == NOTHING && r.available == NOTHING)
    && AtMost(Sum(AvailablePools(resources)), Sum(AllocatablePools(resources)))
  }

  lemma {:induction false} KubernetesSurveySound(devices: seq<Device>, allocations: seq<Allocation>)
    requires NonNegative(allocations)
    requires forall d :: d in devices ==> d.memoryMiB >= 0 && d.coreUnits >= 0
    ensures Sound(KubernetesSurvey(devices, allocations))
  {
    if devices != [] {
      var front, last := devices[..|devices| - 1], devices[|devices| - 1];
      assert last in devices;
      KubernetesSurveySound(front, allocations);
      UsedNonNegative(allocations, last.uuid);
    }
    AvailableWithinAllocatable(KubernetesSurvey(devices, allocations));
  }

  function FreeSum(resources: seq<DeviceResource>): Pool
  {
    if resources == [] then NOTHING
    else PoolPlus(FreeSum(resources[..|resources| - 1]), resources[|resources| - 1].available)
  }

  function UsedSum(devices: seq<Device>, allocations: seq<Allocation>): Pool
  {
    if devices == [] then NOTHING
    else
      var front, last := UsedSum(devices[..|devices| - 1], allocations), devices[|devices| - 1];
      if last.healthy then PoolPlus(front, Used(allocations, last.uuid)) else front
  }

  predicate Balanced(resources: seq<DeviceResource>, spent: Pool)
  {
    PoolPlus(FreeSum(resources), spent) == Sum(AllocatablePools(resources))
  }

  /** No healthy device is promised beyond its capacity. */
  predicate AllFit(devices: seq<Device>, allocations: seq<Allocation>)
  {
    devices == [] ||
    var last := devices[|devices| - 1];
    && AllFit(devices[..|devices| - 1], allocations)
    && (last.healthy ==> AtMost(Used(allocations, last.uuid), KubernetesCapacity(last)))
  }

  /** Nothing is lost over a whole node: what is free and what is allocated on healthy
      devices never add up to less than the capacity the group reports, and to exactly
      that if and only if no device is promised beyond its capacity. */
  lemma {:induction false} KubernetesSurveyConserves(devices: seq<Device>, allocations: seq<Allocation>)
    ensures var resources, spent := KubernetesSurvey(devices, allocations), UsedSum(devices, allocations);
            && AtMost(Sum(AllocatablePools(resources)), PoolPlus(FreeSum(resources), spent))
            && (Balanced(resources, spent) <==> AllFit(devices, allocations))
  {
    if devices != [] {
      var front, last := devices[..|devices| - 1], devices[|devices| - 1];
      KubernetesSurveyConserves(front, allocations);
      var before, r := KubernetesSurvey(front, allocations), KubernetesResource(last, Used(allocations, last.uuid));
      FreeNext(before, r);
      CapacityNext(before, r);
    }
  }

  lemma FreeNext(before: seq<DeviceResource>, r: DeviceResource)
    ensures FreeSum(before + [r]) == PoolPlus(FreeSum(before), r.available)
  {
    assert (before + [r])[..|before|] == before;
  }

  lemma CapacityNext(before: seq<DeviceResource>, r: DeviceResource)
    ensures var now, later := Sum(AllocatablePools(before)), Sum(AllocatablePools(before + [r]));
            later == if r.healthy then PoolPlus(now, r.allocatable) else now
  {
    PoolsNext(before, r);
    SumNext(AllocatablePools(before), r.allocatable);
  }

  lemma {:induction false} StaticSurveySound(devices: seq<Device>, allocations: seq<Allocation>)
    requires NonNegative(allocations)
    requires forall d :: d in devices ==> d.memoryMiB >= 0
    ensures Sound(StaticSurvey(devices, allocations))
  {
    if devices != [] {
      var front, last := devices[..|devices| - 1], devices[|devices| - 1];
      assert last in devices;
      StaticSurveySound(front, allocations);
      UsedNonNegative(allocations, last.uuid);
    }
    AvailableWithinAllocatable(StaticSurvey(devices, allocations));
  }
}
