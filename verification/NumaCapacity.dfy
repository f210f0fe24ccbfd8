/**
 The CPU capacity that `Aggregate` of pkg/resourcemonitor/noderesourcesaggregator.go reports is the
 number of logical processors of the zone.
 */
module NumaCapacity {
  import opened Strings
  import opened Sorting
  import opened NumaDevices
  import opened NumaZones
  import opened NumaAccounting
  import opened NumaCpus

  lemma AllocatableCpus(nr: NodeResources, nodes: seq<TopologyNode>, cpuIds: seq<int>, plugin: seq<Device>,
      blocks: seq<MemoryBlock>, m: map<int, int>, per: PerNuma, devs: seq<Device>, i: int)
    requires Assembled(nr, nodes, cpuIds, plugin, blocks, m, per, devs)
    requires Regular(nodes) && NoCpuPlugin(plugin, blocks) && 0 <= i < |nodes|
    ensures At(nr.allocatable, i, CPU) == |Filter(In(nodes[i].procs), cpuIds)|
    ensures Has(nr.allocatable, i, CPU) <==> Filter(In(nodes[i].procs), cpuIds) != []
  {
    ConcatDevices(plugin, devs, i, CPU);
    NoDevices(plugin, i, CPU);
    NoBlocks(blocks, i, CPU);
    HeldCpus(nodes, cpuIds, m, per, i);
    assert Has(nr.allocatable, i, CPU) <==> DeviceListed(plugin + devs, i, CPU) || MemoryListed(blocks, i, CPU);
  }

  lemma HeldCpus(nodes: seq<TopologyNode>, cpuIds: seq<int>, m: map<int, int>, per: PerNuma, i: int)
    requires Regular(nodes) && CoreMap(m, nodes) && CpusOf(per, m, cpuIds) && 0 <= i < |nodes|
    ensures |ListAt(per, i)| == |Filter(In(nodes[i].procs), cpuIds)|
    ensures i in per <==> Filter(In(nodes[i].procs), cpuIds) != []
  {
    forall c | c in cpuIds ensures MappedTo(m, i)(c) == In(nodes[i].procs)(c) {
      MappedIsHeld(m, nodes, i, c);
    }
    FilterSame(MappedTo(m, i), In(nodes[i].procs), cpuIds);
    assert (if i in per then per[i] else []) == Apply(FormatInt, Filter(MappedTo(m, i), cpuIds));
  }

  lemma AppliedElement(xs: seq<int>, id: string) returns (c: int)
    requires id in Apply(FormatInt, xs)
    ensures c in xs && FormatInt(c) == id
  {
    var j :| 0 <= j < |Apply(FormatInt, xs)| && Apply(FormatInt, xs)[j] == id;
    c := xs[j];
  }

  lemma ElementApplied(xs: seq<int>, c: int)
    requires c in xs
    ensures FormatInt(c) in Apply(FormatInt, xs)
  {
    var j :| 0 <= j < |xs| && xs[j] == c;
    assert Apply(FormatInt, xs)[j] == FormatInt(c);
  }

  /** A processor of the topology is listed as allocatable exactly when its ID was given. */
  lemma ListedExactly(nodes: seq<TopologyNode>, cpuIds: seq<int>, m: map<int, int>, per: PerNuma, i: int, p: int)
    requires CoreMap(m, nodes) && CpusOf(per, m, cpuIds) && 0 <= i < |nodes| && p in nodes[i].procs
    ensures (exists n :: n in per && FormatInt(p) in per[n]) <==> p in cpuIds
  {
    if n :| n in per && FormatInt(p) in per[n] {
      assert per[n] == Apply(FormatInt, Filter(MappedTo(m, n), cpuIds));
      var c := AppliedElement(Filter(MappedTo(m, n), cpuIds), FormatInt(p));
      FormatIntInjective(c, p);
      FilterElement(MappedTo(m, n), cpuIds, c);
    }
    if p in cpuIds {
      LastHolderHolds(nodes, p);
      assert Mapped(m, p) == LastHolder(nodes, p);
      var n := m[p];
      FilterElement(MappedTo(m, n), cpuIds, p);
      ElementApplied(Filter(MappedTo(m, n), cpuIds), p);
      assert (if n in per then per[n] else []) == Apply(FormatInt, Filter(MappedTo(m, n), cpuIds));
      assert n in per;
    }
  }

  lemma PluginPrintsNothing(plugin: seq<Device>, devs: seq<Device>, id: string)
    requires forall i :: 0 <= i < |plugin| ==> plugin[i].resource != CPU
    ensures Printed(plugin + devs, id) <==> Printed(devs, id)
  {
    var all := plugin + devs;
    if Printed(devs, id) {
      var i :| 0 <= i < |devs| && devs[i].resource == CPU && id in devs[i].ids;
      assert all[|plugin| + i] == devs[i];
    }
    if Printed(all, id) {
      var i :| 0 <= i < |all| && all[i].resource == CPU && id in all[i].ids;
      assert i >= |plugin| && all[i] == devs[i - |plugin|];
    }
  }

  lemma ReservedCpus(nr: NodeResources, nodes: seq<TopologyNode>, cpuIds: seq<int>, plugin: seq<Device>,
      blocks: seq<MemoryBlock>, m: map<int, int>, per: PerNuma, devs: seq<Device>, i: int)
    requires Assembled(nr, nodes, cpuIds, plugin, blocks, m, per, devs)
    requires Regular(nodes) && NoCpuPlugin(plugin, blocks) && 0 <= i < |nodes|
    ensures ReservedCount(nr, i) == |Filter(NotIn(cpuIds), nodes[i].procs)|
  {
    var cpus := CpuIds(plugin + devs);
    forall p | p in nodes[i].procs ensures NotListed(cpus)(p) == NotIn(cpuIds)(p) {
      CpuIdsPrinted(plugin + devs, FormatInt(p));
      PluginPrintsNothing(plugin, devs, FormatInt(p));
      ListedExactly(nodes, cpuIds, m, per, i, p);
    }
    FilterSame(NotListed(cpus), NotIn(cpuIds), nodes[i].procs);
    ReservedOfNode(nodes, cpus, i);
    assert ListAt(nr.reserved, i) == ReservedList(nodes, cpus, i);
  }

  /** Allocatable and reserved CPUs of a zone are its logical processors. */
  lemma CpusAddUp(nr: NodeResources, nodes: seq<TopologyNode>, cpuIds: seq<int>, plugin: seq<Device>,
      blocks: seq<MemoryBlock>, m: map<int, int>, per: PerNuma, devs: seq<Device>, i: int)
    requires Assembled(nr, nodes, cpuIds, plugin, blocks, m, per, devs)
    requires Regular(nodes) && NoCpuPlugin(plugin, blocks) && Distinct(cpuIds) && 0 <= i < |nodes|
    ensures At(nr.allocatable, i, CPU) + ReservedCount(nr, i) == |nodes[i].procs|
  {
    AllocatableCpus(nr, nodes, cpuIds, plugin, blocks, m, per, devs, i);
    ReservedCpus(nr, nodes, cpuIds, plugin, blocks, m, per, devs, i);
    SharedCount(cpuIds, nodes[i].procs);
    FilterSplit(nodes[i].procs, cpuIds);
  }

  lemma ZoneCpuCapacity(nr: NodeResources, i: int, procs: nat)
    requires At(nr.allocatable, i, CPU) + ReservedCount(nr, i) == procs && CPU in InitialZone(nr, i)
    ensures InitialZone(nr, i)[CPU].capacity == procs
  {
  }

  /** Whenever a zone reports a cpu entry, its capacity is the number of logical processors of the zone. */
  lemma CpuCapacity(nr: NodeResources, nodes: seq<TopologyNode>, cpuIds: seq<int>, plugin: seq<Device>,
      blocks: seq<MemoryBlock>, m: map<int, int>, per: PerNuma, devs: seq<Device>, ris: seq<ResourceInfo>, i: int)
    requires Assembled(nr, nodes, cpuIds, plugin, blocks, m, per, devs)
    requires Regular(nodes) && NoCpuPlugin(plugin, blocks) && Distinct(cpuIds)
    requires ProcessAll(nr.index, InitialZones(nr), ris).Some?
    requires Known(ProcessAll(nr.index, InitialZones(nr), ris).value, i, CPU)
    ensures 0 <= i < |nodes| && ProcessAll(nr.index, InitialZones(nr), ris).value[i][CPU].capacity == |nodes[i].procs|
  {
    ProcessShape(nr.index, InitialZones(nr), ris);
    ShapeKnown(InitialZones(nr), ProcessAll(nr.index, InitialZones(nr), ris).value, i, CPU);
    CpusAddUp(nr, nodes, cpuIds, plugin, blocks, m, per, devs, i);
    ZoneCpuCapacity(nr, i, |nodes[i].procs|);
  }
}
