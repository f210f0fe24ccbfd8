/**
 Aggregation per NUMA zone: `Aggregate`, `updateAvailable` and `updateMemoryAvailable` of
 pkg/resourcemonitor/noderesourcesaggregator.go.
 */
module NumaZones {
  import opened Strings
  import opened NumaDevices

  const CPU := "cpu"
  const MEMORY := "memory"
  const HUGEPAGES := "hugepages-"

  predicate IsMemory(name: string) {
    name == MEMORY || HUGEPAGES <= name
  }

  /** `resourceData`. */
  datatype Counter = Counter(available: int, allocatable: int, capacity: int)

  type Zones = map<int, map<string, Counter>>

  /** `nodeResources`; `zoneCount` is the number of NUMA nodes of the topology. */
  datatype NodeResources = NodeResources(
    zoneCount: nat,
    allocatable: Allocatable,
    index: Index,
    reserved: map<int, seq<string>>,
    memoryCapacity: map<int, map<string, int>>,
    excluded: set<string>)

  /** `ResourceInfo`: device IDs, or one size and the NUMA nodes it may come from. */
  datatype ResourceInfo = ResourceInfo(name: string, data: seq<string>, numaNodeIds: seq<int>)

  predicate Known(z: Zones, node: int, res: string) {
    node in z && res in z[node]
  }

  function Available(z: Zones, node: int, res: string): int {
    if Known(z, node, res) then z[node][res].available else 0
  }

  // ---- Initial counters ----

  function ReservedCount(nr: NodeResources, node: int): nat {
    if node in nr.reserved then |nr.reserved[node]| else 0
  }

  function Capacity(nr: NodeResources, node: int, res: string, allocatable: int): int {
    if res == CPU then allocatable + ReservedCount(nr, node)
    else if IsMemory(res) && node in nr.memoryCapacity && res in nr.memoryCapacity[node] then
      nr.memoryCapacity[node][res]
    else allocatable
  }

  function InitialZone(nr: NodeResources, node: int): map<string, Counter> {
    if node in nr.allocatable then
      map res | res in nr.allocatable[node] && res !in nr.excluded ::
        Counter(nr.allocatable[node][res], nr.allocatable[node][res],
          Capacity(nr, node, res, nr.allocatable[node][res]))
    else map[CPU := Counter(0, 0, ReservedCount(nr, node))]
  }

  function InitialZones(nr: NodeResources): Zones {
    map node | 0 <= node < nr.zoneCount :: InitialZone(nr, node)
  }

  method MakeZone(nr: NodeResources, node: int) returns (zone: map<string, Counter>)
    ensures zone == InitialZone(nr, node)
  {
    if node !in nr.allocatable {
      return map[CPU := Counter(0, 0, ReservedCount(nr, node))];
    }
    var nodeRes := nr.allocatable[node];
    zone := map[];
    var todo := nodeRes.Keys;
    while todo != {}
      invariant todo <= nodeRes.Keys
      invariant zone.Keys == nodeRes.Keys - todo - nr.excluded
      invariant forall res :: res in zone ==>
        zone[res] == Counter(nodeRes[res], nodeRes[res], Capacity(nr, node, res, nodeRes[res]))
    {
      var res :| res in todo;
      todo := todo - {res};
      if res !in nr.excluded {
        var n := nodeRes[res];
        zone := zone[res := Counter(n, n, Capacity(nr, node, res, n))];
      }
    }
  }

  // ---- One allocated device ----

  function TakeOne(idx: Index, z: Zones, name: string, id: string): Option<Zones> {
    if name !in idx || id !in idx[name] || idx[name][id] !in z then Some(z)
    else
      var node := idx[name][id];
      if name !in z[node] then None
      else
        var c := z[node][name];
        Some(z[node := z[node][name := c.(available := c.available - 1)]])
  }

  /** All device IDs of one entry; None where the code would dereference a missing counter. */
  function Take(idx: Index, z: Zones, name: string, ids: seq<string>): Option<Zones>
    decreases |ids|
  {
    if ids == [] then Some(z)
    else
      var next := TakeOne(idx, z, name, ids[0]);
      if next.None? then None else Take(idx, next.value, name, ids[1..])
  }

  // ---- One memory request ----

  datatype Drained = Drained(zones: Zones, rest: int)

  /** The loop over the NUMA nodes of a request: where the memory comes from and what is left over. */
  function Drain(z: Zones, name: string, nodes: seq<int>, size: int): Drained
    decreases |nodes|
  {
    if nodes == [] || size == 0 then Drained(z, size)
    else
      var node := nodes[0];
      if node !in z then Drain(z, name, nodes[1..], size)
      else if name !in z[node] then Drained(z, size)
      else
        var c := z[node][name];
        if c.available == 0 then Drain(z, name, nodes[1..], size)
        else if size >= c.available then
          Drain(z[node := z[node][name := c.(available := 0)]], name, nodes[1..], size - c.available)
        else
          Drained(z[node := z[node][name := c.(available := c.available - size)]], 0)
  }

  /** `updateMemoryAvailable`, with the entries it ignores. */
  function TakeMemory(z: Zones, ri: ResourceInfo): Zones {
    if ri.numaNodeIds == [] || |ri.data| != 1 || Atoi(ri.data[0]).None? then z
    else Drain(z, ri.name, ri.numaNodeIds, Atoi(ri.data[0]).value).zones
  }

  function Process(idx: Index, z: Zones, ri: ResourceInfo): Option<Zones> {
    if IsMemory(ri.name) then Some(TakeMemory(z, ri)) else Take(idx, z, ri.name, ri.data)
  }

  function ProcessAll(idx: Index, z: Zones, ris: seq<ResourceInfo>): Option<Zones> {
    if ris == [] then Some(z)
    else
      var k := |ris| - 1;
      var before := ProcessAll(idx, z, ris[..k]);
      if before.None? then None else Process(idx, before.value, ris[k])
  }

  /** The table that `Aggregate` fills and updates. */
  class ZoneTable {
    var zones: Zones

    constructor ()
      ensures zones == map[]
    {
      zones := map[];
    }

    /** `updateAvailable`; false where it would panic. */
    method UpdateAvailable(idx: Index, ri: ResourceInfo) returns (ok: bool)
      modifies this
      ensures ok <==> Take(idx, old(zones), ri.name, ri.data).Some?
      ensures ok ==> zones == Take(idx, old(zones), ri.name, ri.data).value
    {
      for i := 0 to |ri.data|
        invariant Take(idx, old(zones), ri.name, ri.data) == Take(idx, zones, ri.name, ri.data[i..])
      {
        var resID := ri.data[i];
        assert ri.data[i..][0] == resID && ri.data[i..][1..] == ri.data[i + 1..];
        if ri.name !in idx { continue; }
        if resID !in idx[ri.name] { continue; }
        var nodeID := idx[ri.name][resID];
        if nodeID !in zones { continue; }
        if ri.name !in zones[nodeID] { return false; }
        var c := zones[nodeID][ri.name];
        zones := zones[nodeID := zones[nodeID][ri.name := c.(available := c.available - 1)]];
      }
      assert ri.data[|ri.data|..] == [];
      return true;
    }

    /** `updateMemoryAvailable`. */
    method UpdateMemoryAvailable(ri: ResourceInfo)
      modifies this
      ensures zones == TakeMemory(old(zones), ri)
    {
      if ri.numaNodeIds == [] || |ri.data| != 1 { return; }
      var parsed := Atoi(ri.data[0]);
      if parsed.None? { return; }
      var requestedSize := parsed.value;
      ghost var goal := Drain(zones, ri.name, ri.numaNodeIds, requestedSize);
      for i := 0 to |ri.numaNodeIds|
        invariant Drain(zones, ri.name, ri.numaNodeIds[i..], requestedSize) == goal
      {
        var node := ri.numaNodeIds[i];
        assert ri.numaNodeIds[i..][0] == node && ri.numaNodeIds[i..][1..] == ri.numaNodeIds[i + 1..];
        if requestedSize == 0 { return; }
        if node !in zones { continue; }
        if ri.name !in zones[node] { return; }
        var c := zones[node][ri.name];
        if c.available == 0 { continue; }
        if requestedSize >= c.available {
          requestedSize := requestedSize - c.available;
          zones := zones[node := zones[node][ri.name := c.(available := 0)]];
        } else {
          zones := zones[node := zones[node][ri.name := c.(available := c.available - requestedSize)]];
          requestedSize := 0;
        }
      }
      assert ri.numaNodeIds[|ri.numaNodeIds|..] == [];
    }
  }

  /** `Aggregate`, on the resources of all containers in the order they are visited. */
  method Aggregate(nr: NodeResources, ris: seq<ResourceInfo>) returns (ok: bool, zones: Zones)
    ensures ok <==> ProcessAll(nr.index, InitialZones(nr), ris).Some?
    ensures ok ==> zones == ProcessAll(nr.index, InitialZones(nr), ris).value
  {
    var table := new ZoneTable();
    for node := 0 to nr.zoneCount
      invariant fresh(table)
      invariant table.zones == map n | 0 <= n < node :: InitialZone(nr, n)
    {
      var zone := MakeZone(nr, node);
      table.zones := table.zones[node := zone];
    }
    zones := table.zones;
    assert ris[..0] == [];
    for i := 0 to |ris|
      invariant fresh(table)
      invariant ProcessAll(nr.index, InitialZones(nr), ris[..i]) == Some(table.zones)
    {
      assert ris[..i + 1][..i] == ris[..i] && ris[..i + 1][i] == ris[i];
      if IsMemory(ris[i].name) {
        table.UpdateMemoryAvailable(ris[i]);
      } else {
        var fine := table.UpdateAvailable(nr.index, ris[i]);
        if !fine {
          PanicStays(nr.index, InitialZones(nr), ris, i + 1);
          return false, map[];
        }
      }
    }
    assert ris[..|ris|] == ris;
    return true, table.zones;
  }

  lemma {:induction false} PanicStays(idx: Index, z: Zones, ris: seq<ResourceInfo>, i: nat)
    requires i <= |ris| && ProcessAll(idx, z, ris[..i]).None?
    ensures ProcessAll(idx, z, ris).None?
    decreases |ris|
  {
    if i == |ris| {
      assert ris[..i] == ris;
    } else {
      var k := |ris| - 1;
      assert ris[..k][..i] == ris[..i];
      PanicStays(idx, z, ris[..k], i);
    }
  }
}
