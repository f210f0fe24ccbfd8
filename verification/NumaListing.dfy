/**
 What the listings of devices and memory come to in the report of `Aggregate`
 (pkg/resourcemonitor/noderesourcesaggregator.go), in terms of sets of devices and sums of sizes.
 */
module NumaListing {
  import opened Strings
  import opened Sorting
  import opened NumaDevices
  import opened NumaZones
  import opened NumaMemory
  import opened NumaAccounting

  // ---- Devices ----

  /** The IDs of a zone are those of the entries that list it. */
  lemma {:induction false} IdSetExactly(devices: seq<Device>, res: string, id: string, node: int)
    ensures id in IdSet(devices, node, res) <==> Indexed(devices, res, id, node)
  {
    if Indexed(devices, res, id, node) {
      IndexedInSet(devices, res, id, node);
    }
    if id in IdSet(devices, node, res) {
      var k := |devices| - 1;
      if id in OwnIds(devices[k], node, res) {
        assert devices[k].resource == res && id in devices[k].ids && node in devices[k].nodes;
      } else {
        IdSetExactly(devices[..k], res, id, node);
        var i :| 0 <= i < k && devices[..k][i].resource == res && id in devices[..k][i].ids
          && node in devices[..k][i].nodes;
        assert devices[..k][i] == devices[i];
      }
    }
  }

  /** Entry `i` is the last one, with nodes, for this ID of the resource. */
  ghost predicate LastEntry(devices: seq<Device>, res: string, id: string, i: int) {
    && -1 <= i < |devices|
    && (i >= 0 ==> devices[i].resource == res && id in devices[i].ids && devices[i].nodes != [])
    && forall j :: i < j < |devices| ==> !(devices[j].resource == res && id in devices[j].ids && devices[j].nodes != [])
  }

  /** A device is indexed to the node listed last in the entry that lists it last. */
  lemma {:induction false} LastNodeIs(devices: seq<Device>, res: string, id: string, i: int)
    requires LastEntry(devices, res, id, i)
    ensures LastNode(devices, res, id) == if i < 0 then None else Some(devices[i].nodes[|devices[i].nodes| - 1])
  {
    var k := |devices| - 1;
    if i < k {
      LastNodeIs(devices[..k], res, id, i);
    }
  }

  /** Each device of the resource has one node, and is listed once. */
  ghost predicate OneNodeEach(devices: seq<Device>, res: string) {
    && (forall i :: 0 <= i < |devices| && devices[i].resource == res ==>
      |devices[i].nodes| == 1 && Distinct(devices[i].ids))
    && (forall i, j, id :: 0 <= i < j < |devices| && devices[i].resource == res == devices[j].resource ==>
      !(id in devices[i].ids && id in devices[j].ids))
  }

  lemma {:induction false} DistinctSize(ids: seq<string>)
    requires Distinct(ids)
    ensures |set id | id in ids| == |ids|
  {
    if ids != [] {
      DistinctTail(ids);
      DistinctSize(ids[1..]);
      assert (set id | id in ids) == {ids[0]} + set id | id in ids[1..];
    }
  }

  lemma OwnSize(d: Device, node: int, res: string)
    requires d.resource == res ==> |d.nodes| == 1 && Distinct(d.ids)
    ensures |OwnIds(d, node, res)| == if d.resource == res then |d.ids| * Count(d.nodes, node) else 0
  {
    if d.resource == res {
      DistinctSize(d.ids);
      assert d.nodes[1..] == [];
    }
  }

  lemma DisjointSize(a: set<string>, b: set<string>)
    requires a !! b
    ensures |a + b| == |a| + |b|
  {
  }

  lemma OneNodePrefix(devices: seq<Device>, res: string, k: nat)
    requires OneNodeEach(devices, res) && k <= |devices|
    ensures OneNodeEach(devices[..k], res)
  {
    assert forall i :: 0 <= i < k ==> devices[..k][i] == devices[i];
  }

  /** The last entry has no ID of the ones before it. */
  lemma LastApart(devices: seq<Device>, node: int, res: string, k: nat)
    requires OneNodeEach(devices, res) && |devices| == k + 1
    ensures IdSet(devices[..k], node, res) !! OwnIds(devices[k], node, res)
  {
    forall id | id in IdSet(devices[..k], node, res) ensures id !in OwnIds(devices[k], node, res) {
      IdSetExactly(devices[..k], res, id, node);
      var i :| 0 <= i < k && devices[..k][i].resource == res && id in devices[..k][i].ids
        && node in devices[..k][i].nodes;
      assert devices[i].resource == res && id in devices[i].ids;
    }
  }

  /** With one node for each device, the count of a zone is the number of its devices. */
  lemma {:induction false} DevicesCounted(devices: seq<Device>, node: int, res: string)
    requires OneNodeEach(devices, res)
    ensures DeviceCount(devices, node, res) == |IdSet(devices, node, res)|
  {
    if devices != [] {
      var k := |devices| - 1;
      OneNodePrefix(devices, res, k);
      DevicesCounted(devices[..k], node, res);
      OwnSize(devices[k], node, res);
      LastApart(devices, node, res, k);
      DisjointSize(IdSet(devices[..k], node, res), OwnIds(devices[k], node, res));
    }
  }

  lemma ListedOnce(devices: seq<Device>, res: string, id: string, i: nat)
    requires OneNodeEach(devices, res) && i < |devices| && devices[i].resource == res && id in devices[i].ids
    ensures LastEntry(devices, res, id, i)
  {
  }

  /** And then a device is indexed to a zone exactly when it is one of the zone's. */
  lemma IndexedIsListed(idx: Index, devices: seq<Device>, res: string, id: string, node: int)
    requires IndexOf(idx, devices) && OneNodeEach(devices, res)
    ensures IndexedTo(idx, res, id, node) <==> id in IdSet(devices, node, res)
  {
    assert Lookup(idx, res, id) == LastNode(devices, res, id);
    LastIsListed(devices, res, id, node);
  }

  lemma LastIsListed(devices: seq<Device>, res: string, id: string, node: int)
    requires OneNodeEach(devices, res)
    ensures LastNode(devices, res, id) == Some(node) <==> id in IdSet(devices, node, res)
  {
    IdSetExactly(devices, res, id, node);
    if Indexed(devices, res, id, node) {
      var i :| 0 <= i < |devices| && devices[i].resource == res && id in devices[i].ids && node in devices[i].nodes;
      ListedOnce(devices, res, id, i);
      LastNodeIs(devices, res, id, i);
    }
    if LastNode(devices, res, id) == Some(node) {
      LastNodeIndexed(devices, res, id);
    }
  }

  /** The IDs of a resource that containers hold. */
  ghost function HeldIds(ris: seq<ResourceInfo>, res: string): set<string> {
    set id | id in Allocated(ris, res)
  }

  lemma HitsHeld(idx: Index, devices: seq<Device>, ris: seq<ResourceInfo>, res: string, node: int)
    requires IndexOf(idx, devices) && OneNodeEach(devices, res)
    ensures HitSet(idx, res, Allocated(ris, res), node) == IdSet(devices, node, res) * HeldIds(ris, res)
  {
    forall id ensures id in HitSet(idx, res, Allocated(ris, res), node) <==>
      id in IdSet(devices, node, res) * HeldIds(ris, res)
    {
      IndexedIsListed(idx, devices, res, id, node);
    }
  }

  lemma Difference(a: set<string>, b: set<string>)
    ensures |a - b| == |a| - |a * b|
  {
    assert a == (a - b) + (a * b);
  }

  lemma {:induction false} NoMemory(blocks: seq<MemoryBlock>, node: int, res: string)
    requires forall i :: 0 <= i < |blocks| ==> blocks[i].kind != res
    ensures MemoryCount(blocks, node, res) == 0
  {
    if blocks != [] {
      NoMemory(blocks[..|blocks| - 1], node, res);
    }
  }

  /**
   With one node for each device and no device held twice, a zone reports as allocatable the number of its
   devices, and as available the number of those that no container holds.
   */
  lemma FreeDevices(nr: NodeResources, devices: seq<Device>, blocks: seq<MemoryBlock>, ris: seq<ResourceInfo>,
      node: int, res: string)
    requires Consistent(nr, devices, blocks) && OneNodeEach(devices, res) && Distinct(Allocated(ris, res))
    requires forall i :: 0 <= i < |blocks| ==> blocks[i].size >= 0 && blocks[i].kind != res
    requires ProcessAll(nr.index, InitialZones(nr), ris).Some? && !IsMemory(res)
    requires Known(ProcessAll(nr.index, InitialZones(nr), ris).value, node, res)
    ensures var c := ProcessAll(nr.index, InitialZones(nr), ris).value[node][res];
      && c.allocatable == |IdSet(devices, node, res)|
      && c.available == |IdSet(devices, node, res) - HeldIds(ris, res)|
  {
    ReportedAvailable(nr, devices, blocks, ris, node, res);
    DevicesCounted(devices, node, res);
    NoMemory(blocks, node, res);
    HitsAreDistinct(nr.index, res, Allocated(ris, res), node);
    HitsHeld(nr.index, devices, ris, res, node);
    Difference(IdSet(devices, node, res), HeldIds(ris, res));
    assert At(nr.allocatable, node, res) == DeviceCount(devices, node, res) + MemoryCount(blocks, node, res);
  }

  // ---- Memory ----

  lemma {:induction false} MemoryAppend(a: seq<MemoryBlock>, b: seq<MemoryBlock>, node: int, kind: string)
    ensures MemoryCount(a + b, node, kind) == MemoryCount(a, node, kind) + MemoryCount(b, node, kind)
    decreases |b|
  {
    if b == [] {
      assert a + b == a;
    } else {
      var k := |b| - 1;
      assert (a + b)[..|a + b| - 1] == a + b[..k];
      MemoryAppend(a, b[..k], node, kind);
    }
  }

  /** A block counts with its size on each node of its topology, and listings add up. */
  lemma MemoryAddsUp(a: seq<MemoryBlock>, b: seq<MemoryBlock>, kind: string, size: int, nodes: seq<int>, node: int,
      other: string)
    requires Distinct(nodes)
    ensures MemoryCount([MemoryBlock(kind, size, Some(nodes))], node, kind) == if node in nodes then size else 0
    ensures MemoryCount([MemoryBlock(kind, size, None)], node, kind) == 0
    ensures other != kind ==> MemoryCount([MemoryBlock(kind, size, Some(nodes))], node, other) == 0
    ensures MemoryCount(a + b, node, kind) == MemoryCount(a, node, kind) + MemoryCount(b, node, kind)
  {
    MemoryAppend(a, b, node, kind);
    CountOnce(nodes, node);
    OneBlock(MemoryBlock(kind, size, Some(nodes)), node, kind);
    OneBlock(MemoryBlock(kind, size, Some(nodes)), node, other);
    OneBlock(MemoryBlock(kind, size, None), node, kind);
  }

  lemma OneBlock(b: MemoryBlock, node: int, kind: string)
    ensures MemoryCount([b], node, kind) == if b.kind == kind then b.size * Count(Nodes(b), node) else 0
  {
    assert [b][..0] == [];
  }

  lemma {:induction false} CountOnce(nodes: seq<int>, node: int)
    requires Distinct(nodes)
    ensures Count(nodes, node) == if node in nodes then 1 else 0
  {
    if nodes != [] {
      DistinctTail(nodes);
      CountOnce(nodes[1..], node);
    }
  }

  // ---- Capacity ----

  lemma ShapeAt(a: Zones, b: Zones, node: int, res: string)
    requires SameShape(a, b) && Known(a, node, res)
    ensures Known(b, node, res) && b[node].Keys == a[node].Keys
    ensures b[node][res].capacity == a[node][res].capacity && b[node][res].allocatable == a[node][res].allocatable
  {
  }

  lemma StartCapacity(nr: NodeResources, node: int, res: string)
    requires Known(InitialZones(nr), node, res) && res != CPU
    ensures var c := InitialZones(nr)[node][res];
      c.capacity == if IsMemory(res) && Has(nr.memoryCapacity, node, res) then At(nr.memoryCapacity, node, res)
        else c.allocatable
  {
  }

  /**
   Reported capacity: of memory what the system has, where it is known, and otherwise the allocatable
   amount; of devices other than CPUs the allocatable amount.
   */
  lemma ReportedCapacity(nr: NodeResources, ris: seq<ResourceInfo>, node: int, res: string)
    requires ProcessAll(nr.index, InitialZones(nr), ris).Some? && res != CPU
    requires Known(ProcessAll(nr.index, InitialZones(nr), ris).value, node, res)
    ensures var c := ProcessAll(nr.index, InitialZones(nr), ris).value[node][res];
      c.capacity == if IsMemory(res) && Has(nr.memoryCapacity, node, res) then At(nr.memoryCapacity, node, res)
        else c.allocatable
  {
    var z := InitialZones(nr);
    ProcessShape(nr.index, z, ris);
    ShapeKnown(z, ProcessAll(nr.index, z, ris).value, node, res);
    StartCapacity(nr, node, res);
    ShapeAt(z, ProcessAll(nr.index, z, ris).value, node, res);
  }

  lemma BareStart(nr: NodeResources, node: int)
    requires 0 <= node < nr.zoneCount && node !in nr.allocatable
    ensures var z := InitialZones(nr);
      node in z && z[node].Keys == {CPU} && z[node][CPU] == Counter(0, 0, ReservedCount(nr, node))
  {
  }

  /** A zone of the topology without allocatable devices or memory reports its reserved CPUs and nothing else. */
  lemma BareZone(nr: NodeResources, ris: seq<ResourceInfo>, node: int)
    requires ProcessAll(nr.index, InitialZones(nr), ris).Some?
    requires 0 <= node < nr.zoneCount && node !in nr.allocatable
    ensures var z := ProcessAll(nr.index, InitialZones(nr), ris).value;
      node in z && z[node].Keys == {CPU} && z[node][CPU].capacity == ReservedCount(nr, node)
        && z[node][CPU].allocatable == 0
  {
    ProcessShape(nr.index, InitialZones(nr), ris);
    BareStart(nr, node);
    ShapeAt(InitialZones(nr), ProcessAll(nr.index, InitialZones(nr), ris).value, node, CPU);
  }
}
