/**
 What `Aggregate` of pkg/resourcemonitor/noderesourcesaggregator.go reports: the device index and the
 allocatable counters agree, so counters are there when needed and count what was handed out.
 */
module NumaAccounting {
  import opened Strings
  import opened Sorting
  import opened NumaDevices
  import opened NumaZones
  import opened NumaMemory

  /** Index and counters were made from the same device and memory listings. */
  ghost predicate Consistent(nr: NodeResources, devices: seq<Device>, blocks: seq<MemoryBlock>) {
    IndexOf(nr.index, devices) && AllocatableOf(nr.allocatable, devices, blocks)
  }

  /** An ID of a resource is indexed to a zone. */
  predicate IndexedTo(idx: Index, name: string, id: string, node: int) {
    name in idx && id in idx[name] && idx[name][id] == node
  }

  ghost predicate Touches(idx: Index, z: Zones, name: string, id: string) {
    name in idx && id in idx[name] && idx[name][id] in z
  }

  // ---- Missing counters ----

  lemma IndexedIsAllocatable(nr: NodeResources, devices: seq<Device>, blocks: seq<MemoryBlock>, name: string,
      id: string, node: int)
    requires Consistent(nr, devices, blocks) && IndexedTo(nr.index, name, id, node)
    ensures Has(nr.allocatable, node, name)
  {
    assert Lookup(nr.index, name, id) == LastNode(devices, name, id);
    LastNodeIndexed(devices, name, id);
    var i :| 0 <= i < |devices| && devices[i].resource == name && id in devices[i].ids && node in devices[i].nodes;
    assert DeviceListed(devices, node, name);
  }

  /** For an indexed device of a known zone the counter is there exactly when the resource is not excluded. */
  lemma CounterThere(nr: NodeResources, devices: seq<Device>, blocks: seq<MemoryBlock>, name: string, id: string,
      node: int)
    requires Consistent(nr, devices, blocks) && IndexedTo(nr.index, name, id, node) && 0 <= node < nr.zoneCount
    ensures Known(InitialZones(nr), node, name) <==> name !in nr.excluded
  {
    IndexedIsAllocatable(nr, devices, blocks, name, id, node);
  }

  lemma ShapeKnown(a: Zones, b: Zones, node: int, name: string)
    requires SameShape(a, b)
    ensures Known(a, node, name) <==> Known(b, node, name)
  {
  }

  lemma {:induction false} TakeShape(idx: Index, z: Zones, name: string, ids: seq<string>)
    requires Take(idx, z, name, ids).Some?
    ensures SameShape(z, Take(idx, z, name, ids).value)
    decreases |ids|
  {
    if ids != [] {
      var next := TakeOne(idx, z, name, ids[0]).value;
      OneShape(idx, z, name, ids[0]);
      TakeShape(idx, next, name, ids[1..]);
      ShapeTrans(z, next, Take(idx, z, name, ids).value);
    }
  }

  lemma OneShape(idx: Index, z: Zones, name: string, id: string)
    requires TakeOne(idx, z, name, id).Some?
    ensures SameShape(z, TakeOne(idx, z, name, id).value)
    ensures forall n, r :: (Available(TakeOne(idx, z, name, id).value, n, r) ==
      Available(z, n, r) - (if r == name && n in z && IndexedTo(idx, name, id, n) then 1 else 0))
  {
    if Touches(idx, z, name, id) {
      var node := idx[name][id];
      SetShape(z, node, name, z[node][name].available - 1);
    }
  }

  /** Handing out devices fails exactly on an indexed device of an excluded resource in a known zone. */
  lemma {:induction false} TakeFails(nr: NodeResources, devices: seq<Device>, blocks: seq<MemoryBlock>, z: Zones,
      name: string, ids: seq<string>)
    requires Consistent(nr, devices, blocks) && SameShape(InitialZones(nr), z)
    ensures Take(nr.index, z, name, ids).None? <==>
      name in nr.excluded && exists i :: 0 <= i < |ids| && Touches(nr.index, InitialZones(nr), name, ids[i])
    decreases |ids|
  {
    if ids != [] {
      var id := ids[0];
      if Touches(nr.index, z, name, id) {
        CounterThere(nr, devices, blocks, name, id, nr.index[name][id]);
        ShapeKnown(InitialZones(nr), z, nr.index[name][id], name);
      }
      var next := TakeOne(nr.index, z, name, id);
      if next.Some? {
        OneShape(nr.index, z, name, id);
        ShapeTrans(InitialZones(nr), z, next.value);
        TakeFails(nr, devices, blocks, next.value, name, ids[1..]);
        LaterTouch(nr, name, ids);
      }
    }
  }

  lemma LaterTouch(nr: NodeResources, name: string, ids: seq<string>)
    requires ids != []
    ensures (exists i :: 0 <= i < |ids| && Touches(nr.index, InitialZones(nr), name, ids[i])) <==>
      || Touches(nr.index, InitialZones(nr), name, ids[0])
      || exists i :: 0 <= i < |ids[1..]| && Touches(nr.index, InitialZones(nr), name, ids[1..][i])
  {
    if i :| 0 < i < |ids| && Touches(nr.index, InitialZones(nr), name, ids[i]) {
      assert ids[i] == ids[1..][i - 1];
    }
  }

  lemma {:induction false} ProcessShape(idx: Index, z: Zones, ris: seq<ResourceInfo>)
    requires ProcessAll(idx, z, ris).Some?
    ensures SameShape(z, ProcessAll(idx, z, ris).value)
  {
    if ris != [] {
      var k := |ris| - 1;
      ProcessShape(idx, z, ris[..k]);
      var before := ProcessAll(idx, z, ris[..k]).value;
      OneProcessShape(idx, before, ris[k]);
      ShapeTrans(z, before, ProcessAll(idx, z, ris).value);
    }
  }

  lemma OneProcessShape(idx: Index, z: Zones, ri: ResourceInfo)
    requires Process(idx, z, ri).Some?
    ensures SameShape(z, Process(idx, z, ri).value)
  {
    if IsMemory(ri.name) {
      MemoryShape(z, ri);
    } else {
      TakeShape(idx, z, ri.name, ri.data);
    }
  }

  lemma MemoryShape(z: Zones, ri: ResourceInfo)
    ensures SameShape(z, TakeMemory(z, ri))
    ensures forall n, r :: r != ri.name ==> Available(TakeMemory(z, ri), n, r) == Available(z, n, r)
  {
    if |ri.data| == 1 && Atoi(ri.data[0]).Some? {
      DrainShape(z, ri.name, ri.numaNodeIds, Atoi(ri.data[0]).value);
    }
  }

  /** An entry of the pod data that names an excluded resource with a device of a known zone. */
  ghost predicate Offends(nr: NodeResources, ri: ResourceInfo) {
    !IsMemory(ri.name) && ri.name in nr.excluded &&
    exists i :: 0 <= i < |ri.data| && Touches(nr.index, InitialZones(nr), ri.name, ri.data[i])
  }

  /**
   `Aggregate` dereferences a missing counter exactly when some container holds an indexed device, in a
   zone of the topology, of a resource that is excluded.
   */
  lemma {:induction false} PanicsExactly(nr: NodeResources, devices: seq<Device>, blocks: seq<MemoryBlock>,
      ris: seq<ResourceInfo>)
    requires Consistent(nr, devices, blocks)
    ensures ProcessAll(nr.index, InitialZones(nr), ris).None? <==> exists i :: 0 <= i < |ris| && Offends(nr, ris[i])
  {
    if ris != [] {
      var k := |ris| - 1;
      var init := ris[..k];
      PanicsExactly(nr, devices, blocks, init);
      assert forall i :: 0 <= i < k ==> init[i] == ris[i];
      var before := ProcessAll(nr.index, InitialZones(nr), init);
      if before.Some? {
        ProcessShape(nr.index, InitialZones(nr), init);
        OneFails(nr, devices, blocks, before.value, ris[k]);
      }
    }
  }

  lemma OneFails(nr: NodeResources, devices: seq<Device>, blocks: seq<MemoryBlock>, z: Zones, ri: ResourceInfo)
    requires Consistent(nr, devices, blocks) && SameShape(InitialZones(nr), z)
    ensures Process(nr.index, z, ri).None? <==> Offends(nr, ri)
  {
    if !IsMemory(ri.name) {
      TakeFails(nr, devices, blocks, z, ri.name, ri.data);
    }
  }

  // ---- What the counters count ----

  /** How many of the IDs are indexed to the zone. */
  function Hits(idx: Index, name: string, ids: seq<string>, node: int): nat {
    if ids == [] then 0 else (if IndexedTo(idx, name, ids[0], node) then 1 else 0) + Hits(idx, name, ids[1..], node)
  }

  lemma {:induction false} HitsConcat(idx: Index, name: string, a: seq<string>, b: seq<string>, node: int)
    ensures Hits(idx, name, a + b, node) == Hits(idx, name, a, node) + Hits(idx, name, b, node)
  {
    if a == [] {
      assert a + b == b;
    } else {
      assert (a + b)[1..] == a[1..] + b;
      HitsConcat(idx, name, a[1..], b, node);
    }
  }

  /** Device IDs of a resource over all entries, in order. */
  function Allocated(ris: seq<ResourceInfo>, name: string): seq<string> {
    if ris == [] then []
    else
      var k := |ris| - 1;
      Allocated(ris[..k], name) + (if ris[k].name == name then ris[k].data else [])
  }

  lemma {:induction false} TakeCounts(idx: Index, z: Zones, name: string, ids: seq<string>, node: int, res: string)
    requires Take(idx, z, name, ids).Some? && node in z
    ensures Available(Take(idx, z, name, ids).value, node, res) ==
      Available(z, node, res) - (if res == name then Hits(idx, name, ids, node) else 0)
    decreases |ids|
  {
    if ids != [] {
      OneShape(idx, z, name, ids[0]);
      TakeCounts(idx, TakeOne(idx, z, name, ids[0]).value, name, ids[1..], node, res);
    }
  }

  lemma ProcessCounts(idx: Index, z: Zones, ri: ResourceInfo, node: int, res: string)
    requires Process(idx, z, ri).Some? && node in z && !IsMemory(res)
    ensures Available(Process(idx, z, ri).value, node, res) ==
      Available(z, node, res) - (if ri.name == res then Hits(idx, res, ri.data, node) else 0)
  {
    if IsMemory(ri.name) {
      MemoryShape(z, ri);
    } else {
      TakeCounts(idx, z, ri.name, ri.data, node, res);
    }
  }

  /** Available is what was there at first, less the allocated devices indexed to the zone. */
  lemma {:induction false} AvailableCounts(idx: Index, z: Zones, ris: seq<ResourceInfo>, node: int, res: string)
    requires ProcessAll(idx, z, ris).Some? && node in z && !IsMemory(res)
    ensures Available(ProcessAll(idx, z, ris).value, node, res) ==
      Available(z, node, res) - Hits(idx, res, Allocated(ris, res), node)
  {
    if ris != [] {
      var k := |ris| - 1;
      AvailableCounts(idx, z, ris[..k], node, res);
      ProcessShape(idx, z, ris[..k]);
      ProcessCounts(idx, ProcessAll(idx, z, ris[..k]).value, ris[k], node, res);
      HitsConcat(idx, res, Allocated(ris[..k], res), if ris[k].name == res then ris[k].data else [], node);
    }
  }

  // ---- Never negative ----

  ghost function OwnIds(d: Device, node: int, res: string): set<string> {
    if d.resource == res && node in d.nodes then set id | id in d.ids else {}
  }

  ghost function IdSet(devices: seq<Device>, node: int, res: string): set<string> {
    if devices == [] then {}
    else IdSet(devices[..|devices| - 1], node, res) + OwnIds(devices[|devices| - 1], node, res)
  }

  lemma {:induction false} SetOfSeq(ids: seq<string>)
    ensures |set id | id in ids| <= |ids|
  {
    if ids != [] {
      SetOfSeq(ids[1..]);
      assert (set id | id in ids) == {ids[0]} + set id | id in ids[1..];
    }
  }

  lemma {:induction false} CountPositive(nodes: seq<int>, node: int)
    ensures node in nodes ==> Count(nodes, node) >= 1
  {
    if nodes != [] {
      CountPositive(nodes[1..], node);
    }
  }

  lemma UnionBound(a: set<string>, b: set<string>)
    ensures |a + b| <= |a| + |b|
  {
    assert |a + b| == |a| + |b| - |a * b|;
  }

  lemma OwnBound(d: Device, node: int, res: string)
    ensures |OwnIds(d, node, res)| <= if d.resource == res then |d.ids| * Count(d.nodes, node) else 0
  {
    SetOfSeq(d.ids);
    CountPositive(d.nodes, node);
    if d.resource == res && node in d.nodes {
      var c := Count(d.nodes, node);
      assert |d.ids| * c == |d.ids| * (c - 1) + |d.ids|;
    }
  }

  lemma {:induction false} IdSetBound(devices: seq<Device>, node: int, res: string)
    ensures |IdSet(devices, node, res)| <= DeviceCount(devices, node, res)
  {
    if devices != [] {
      var k := |devices| - 1;
      IdSetBound(devices[..k], node, res);
      OwnBound(devices[k], node, res);
      UnionBound(IdSet(devices[..k], node, res), OwnIds(devices[k], node, res));
    }
  }

  lemma {:induction false} IndexedInSet(devices: seq<Device>, res: string, id: string, node: int)
    requires Indexed(devices, res, id, node)
    ensures id in IdSet(devices, node, res)
  {
    var i :| 0 <= i < |devices| && devices[i].resource == res && id in devices[i].ids && node in devices[i].nodes;
    var k := |devices| - 1;
    if i < k {
      assert devices[..k][i] == devices[i];
      IndexedInSet(devices[..k], res, id, node);
    }
  }

  ghost function HitSet(idx: Index, name: string, ids: seq<string>, node: int): set<string> {
    set id | id in ids && IndexedTo(idx, name, id, node)
  }

  lemma {:induction false} HitsAreDistinct(idx: Index, name: string, ids: seq<string>, node: int)
    requires Distinct(ids)
    ensures Hits(idx, name, ids, node) == |HitSet(idx, name, ids, node)|
  {
    if ids != [] {
      DistinctTail(ids);
      HitsAreDistinct(idx, name, ids[1..], node);
      var rest := HitSet(idx, name, ids[1..], node);
      if IndexedTo(idx, name, ids[0], node) {
        assert HitSet(idx, name, ids, node) == rest + {ids[0]};
      } else {
        assert HitSet(idx, name, ids, node) == rest;
      }
    }
  }

  lemma SubsetSize(a: set<string>, b: set<string>)
    requires a <= b
    ensures |a| <= |b|
  {
    assert b == a + (b - a);
  }

  /** Distinct device IDs cannot hit a zone more often than it has devices. */
  lemma HitsBound(idx: Index, devices: seq<Device>, res: string, ids: seq<string>, node: int)
    requires IndexOf(idx, devices) && Distinct(ids)
    ensures Hits(idx, res, ids, node) <= DeviceCount(devices, node, res)
  {
    HitsAreDistinct(idx, res, ids, node);
    forall id | id in HitSet(idx, res, ids, node) ensures id in IdSet(devices, node, res) {
      assert Lookup(idx, res, id) == LastNode(devices, res, id);
      LastNodeIndexed(devices, res, id);
      IndexedInSet(devices, res, id, node);
    }
    SubsetSize(HitSet(idx, res, ids, node), IdSet(devices, node, res));
    IdSetBound(devices, node, res);
  }

  lemma {:induction false} MemoryCountSign(blocks: seq<MemoryBlock>, node: int, kind: string)
    requires forall i :: 0 <= i < |blocks| ==> blocks[i].size >= 0
    ensures MemoryCount(blocks, node, kind) >= 0
  {
    if blocks != [] {
      var k := |blocks| - 1;
      MemoryCountSign(blocks[..k], node, kind);
      assert blocks[k].size * Count(Nodes(blocks[k]), node) >= 0;
    }
  }

  /**
   Each reported counter of a device resource or of CPUs shows allocatable less the allocated devices
   indexed to the zone, and is not negative when no device ID is handed out twice.
   */
  lemma ReportedAvailable(nr: NodeResources, devices: seq<Device>, blocks: seq<MemoryBlock>, ris: seq<ResourceInfo>,
      node: int, res: string)
    requires Consistent(nr, devices, blocks) && forall i :: 0 <= i < |blocks| ==> blocks[i].size >= 0
    requires ProcessAll(nr.index, InitialZones(nr), ris).Some? && !IsMemory(res)
    requires Known(ProcessAll(nr.index, InitialZones(nr), ris).value, node, res)
    ensures var c := ProcessAll(nr.index, InitialZones(nr), ris).value[node][res];
      && c.available == c.allocatable - Hits(nr.index, res, Allocated(ris, res), node)
      && c.allocatable == At(nr.allocatable, node, res)
      && (Distinct(Allocated(ris, res)) ==> c.available >= 0)
  {
    var z := InitialZones(nr);
    ProcessShape(nr.index, z, ris);
    ShapeKnown(z, ProcessAll(nr.index, z, ris).value, node, res);
    AvailableCounts(nr.index, z, ris, node, res);
    assert At(nr.allocatable, node, res) == DeviceCount(devices, node, res) + MemoryCount(blocks, node, res);
    MemoryCountSign(blocks, node, res);
    if Distinct(Allocated(ris, res)) {
      HitsBound(nr.index, devices, res, Allocated(ris, res), node);
    }
  }

  // ---- Memory over a whole run ----

  /** No memory request of the pod data is negative. */
  ghost predicate NoNegativeRequest(ris: seq<ResourceInfo>) {
    forall i :: 0 <= i < |ris| && IsMemory(ris[i].name) && |ris[i].data| == 1 && Atoi(ris[i].data[0]).Some? ==>
      Atoi(ris[i].data[0]).value >= 0
  }

  lemma MemoryStep(idx: Index, z: Zones, ri: ResourceInfo, res: string)
    requires Process(idx, z, ri).Some? && IsMemory(res) && NonNegative(z, res) && NoNegativeRequest([ri])
    ensures forall n :: 0 <= Available(Process(idx, z, ri).value, n, res) <= Available(z, n, res)
  {
    assert [ri][0] == ri;
    if IsMemory(ri.name) {
      MemoryShape(z, ri);
      if ri.name == res && |ri.data| == 1 && Atoi(ri.data[0]).Some? {
        DrainBounds(z, res, ri.numaNodeIds, Atoi(ri.data[0]).value);
      }
    } else {
      forall n ensures Available(Process(idx, z, ri).value, n, res) == Available(z, n, res) {
        if n in z {
          TakeCounts(idx, z, ri.name, ri.data, n, res);
        } else {
          TakeShape(idx, z, ri.name, ri.data);
        }
      }
    }
  }

  /** Over any sequence of non-negative requests every zone keeps 0 <= available <= the amount at the start. */
  lemma {:induction false} MemoryBounds(idx: Index, z: Zones, ris: seq<ResourceInfo>, res: string)
    requires ProcessAll(idx, z, ris).Some? && IsMemory(res) && NonNegative(z, res) && NoNegativeRequest(ris)
    ensures forall n :: 0 <= Available(ProcessAll(idx, z, ris).value, n, res) <= Available(z, n, res)
  {
    if ris != [] {
      var k := |ris| - 1;
      assert forall i :: 0 <= i < k ==> ris[..k][i] == ris[i];
      MemoryBounds(idx, z, ris[..k], res);
      MemoryStep(idx, ProcessAll(idx, z, ris[..k]).value, ris[k], res);
    }
  }

  lemma MemoryStart(nr: NodeResources, devices: seq<Device>, blocks: seq<MemoryBlock>, res: string)
    requires Consistent(nr, devices, blocks) && forall i :: 0 <= i < |blocks| ==> blocks[i].size >= 0
    ensures NonNegative(InitialZones(nr), res)
  {
    forall n ensures Available(InitialZones(nr), n, res) >= 0 {
      if Known(InitialZones(nr), n, res) {
        MemoryCountSign(blocks, n, res);
        DeviceCountSign(devices, n, res);
        assert At(nr.allocatable, n, res) == DeviceCount(devices, n, res) + MemoryCount(blocks, n, res);
      }
    }
  }

  lemma {:induction false} DeviceCountSign(devices: seq<Device>, node: int, res: string)
    ensures DeviceCount(devices, node, res) >= 0
  {
    IdSetBound(devices, node, res);
  }

  /**
   Each reported memory counter keeps between zero and allocatable, which is the listed amount, when no
   request is negative.
   */
  lemma ReportedMemory(nr: NodeResources, devices: seq<Device>, blocks: seq<MemoryBlock>, ris: seq<ResourceInfo>,
      node: int, res: string)
    requires Consistent(nr, devices, blocks) && forall i :: 0 <= i < |blocks| ==> blocks[i].size >= 0
    requires ProcessAll(nr.index, InitialZones(nr), ris).Some? && IsMemory(res) && NoNegativeRequest(ris)
    requires Known(ProcessAll(nr.index, InitialZones(nr), ris).value, node, res)
    ensures var c := ProcessAll(nr.index, InitialZones(nr), ris).value[node][res];
      0 <= c.available <= c.allocatable && c.allocatable == At(nr.allocatable, node, res)
  {
    var z := InitialZones(nr);
    ProcessShape(nr.index, z, ris);
    ShapeKnown(z, ProcessAll(nr.index, z, ris).value, node, res);
    MemoryStart(nr, devices, blocks, res);
    MemoryBounds(nr.index, z, ris, res);
    assert Available(ProcessAll(nr.index, z, ris).value, node, res) <= Available(z, node, res);
  }

  // ---- A container that holds an excluded device ----

  const ONE_GPU := [Device("gpu", ["0"], [0])]

  const GPU_EXCLUDED := NodeResources(1, map[0 := map["gpu" := 1]], map["gpu" := map["0" := 0]], map[], map[], {"gpu"})

  lemma OneGpu()
    ensures Consistent(GPU_EXCLUDED, ONE_GPU, [])
  {
    assert ONE_GPU[..0] == [] && ONE_GPU[0].ids == ["0"] && ONE_GPU[0].nodes == [0];
    forall res, id ensures Lookup(GPU_EXCLUDED.index, res, id) == LastNode(ONE_GPU, res, id) {
      assert LastNode([], res, id) == None;
    }
    forall node, res
      ensures Has(GPU_EXCLUDED.allocatable, node, res) <==>
        DeviceListed(ONE_GPU, node, res) || MemoryListed([], node, res)
      ensures At(GPU_EXCLUDED.allocatable, node, res) == DeviceCount(ONE_GPU, node, res) + MemoryCount([], node, res)
    {
      assert DeviceListed(ONE_GPU, node, res) <==> res == "gpu" && node == 0;
      assert DeviceCount([], node, res) == 0 && Count([0][1..], node) == 0;
    }
  }

  /** One excluded GPU in zone 0, held by one container: the aggregation dereferences a missing counter. */
  lemma ExcludedGpuPanics()
    ensures Consistent(GPU_EXCLUDED, ONE_GPU, [])
    ensures ProcessAll(GPU_EXCLUDED.index, InitialZones(GPU_EXCLUDED), [ResourceInfo("gpu", ["0"], [0])]).None?
  {
    var ri := ResourceInfo("gpu", ["0"], [0]);
    OneGpu();
    assert Touches(GPU_EXCLUDED.index, InitialZones(GPU_EXCLUDED), "gpu", ri.data[0]);
    assert "gpu"[0] != MEMORY[0] && "gpu"[0] != HUGEPAGES[0];
    assert Offends(GPU_EXCLUDED, [ri][0]);
    PanicsExactly(GPU_EXCLUDED, ONE_GPU, [], [ri]);
  }
}
