/**
 CPUs per NUMA zone: `MakeLogicalCoreIDToNodeIDMap`, `getContainerDevicesFromAllocatableResources` and
 `makeReservedCPUMap` of pkg/resourcemonitor/noderesourcesaggregator.go, and the capacity they add up to.
 */
module NumaCpus {
  import opened Strings
  import opened Sorting
  import opened NumaDevices
  import opened NumaZones

  /** A NUMA node and the logical processors of its cores, in order. */
  datatype TopologyNode = TopologyNode(id: int, procs: seq<int>)

  // ---- Counting ----

  lemma {:induction false} FilterAppend<T>(keep: T -> bool, xs: seq<T>, x: T)
    ensures Filter(keep, xs + [x]) == Filter(keep, xs) + if keep(x) then [x] else []
  {
    if xs == [] {
      assert xs + [x] == [x] && [x][1..] == [];
    } else {
      assert (xs + [x])[1..] == xs[1..] + [x];
      FilterAppend(keep, xs[1..], x);
    }
  }

  ghost function Kept(keep: int -> bool, xs: seq<int>): set<int> {
    set x | x in xs && keep(x)
  }

  lemma {:induction false} FilterCard(keep: int -> bool, xs: seq<int>)
    requires Distinct(xs)
    ensures |Filter(keep, xs)| == |Kept(keep, xs)|
  {
    if xs != [] {
      DistinctTail(xs);
      FilterCard(keep, xs[1..]);
      if keep(xs[0]) {
        assert Kept(keep, xs) == Kept(keep, xs[1..]) + {xs[0]};
      } else {
        assert Kept(keep, xs) == Kept(keep, xs[1..]);
      }
    }
  }

  function In(xs: seq<int>): int -> bool {
    x => x in xs
  }

  function NotIn(xs: seq<int>): int -> bool {
    x => x !in xs
  }

  /** Two duplicate-free lists share as many elements counted from either side. */
  lemma SharedCount(xs: seq<int>, ys: seq<int>)
    requires Distinct(xs) && Distinct(ys)
    ensures |Filter(In(ys), xs)| == |Filter(In(xs), ys)|
  {
    FilterCard(In(ys), xs);
    FilterCard(In(xs), ys);
    assert Kept(In(ys), xs) == Kept(In(xs), ys);
  }

  lemma {:induction false} FilterSplit(xs: seq<int>, ys: seq<int>)
    ensures |Filter(In(ys), xs)| + |Filter(NotIn(ys), xs)| == |xs|
  {
    if xs != [] {
      FilterSplit(xs[1..], ys);
    }
  }

  lemma FilterHead(p: int -> bool, xs: seq<int>)
    requires xs != []
    ensures Filter(p, xs) == if p(xs[0]) then [xs[0]] + Filter(p, xs[1..]) else Filter(p, xs[1..])
  {
  }

  lemma {:induction false} FilterSame(p: int -> bool, q: int -> bool, xs: seq<int>)
    requires forall x :: x in xs ==> p(x) == q(x)
    ensures Filter(p, xs) == Filter(q, xs)
  {
    if xs != [] {
      var x := xs[0];
      assert x in xs && p(x) == q(x);
      FilterSame(p, q, xs[1..]);
      FilterHead(p, xs);
      FilterHead(q, xs);
    }
  }

  // ---- Processor to node ----

  /** The ID of the last node that holds the processor. */
  function LastHolder(nodes: seq<TopologyNode>, p: int): Option<int> {
    if nodes == [] then None
    else if p in nodes[|nodes| - 1].procs then Some(nodes[|nodes| - 1].id)
    else LastHolder(nodes[..|nodes| - 1], p)
  }

  lemma {:induction false} LastHolderHolds(nodes: seq<TopologyNode>, p: int)
    ensures (exists i :: 0 <= i < |nodes| && p in nodes[i].procs) ==> LastHolder(nodes, p).Some?
    ensures LastHolder(nodes, p).Some? ==>
      exists i :: 0 <= i < |nodes| && p in nodes[i].procs && LastHolder(nodes, p).value == nodes[i].id
  {
    if nodes != [] {
      var init := nodes[..|nodes| - 1];
      LastHolderHolds(init, p);
      assert forall i :: 0 <= i < |init| ==> init[i] == nodes[i];
    }
  }

  /** The last of the nodes that hold a processor gives its ID. */
  lemma {:induction false} LastHolderIs(nodes: seq<TopologyNode>, p: int, i: int)
    requires -1 <= i < |nodes| && (i >= 0 ==> p in nodes[i].procs)
    requires forall j :: i < j < |nodes| ==> p !in nodes[j].procs
    ensures LastHolder(nodes, p) == if i < 0 then None else Some(nodes[i].id)
  {
    if i < |nodes| - 1 {
      LastHolderIs(nodes[..|nodes| - 1], p, i);
    }
  }

  /** Exactly the processors of the topology are mapped, each to the last node that holds it. */
  ghost predicate CoreMap(m: map<int, int>, nodes: seq<TopologyNode>) {
    forall p :: Mapped(m, p) == LastHolder(nodes, p)
  }

  function Mapped(m: map<int, int>, p: int): Option<int> {
    if p in m then Some(m[p]) else None
  }

  method MakeLogicalCoreIDToNodeIDMap(nodes: seq<TopologyNode>) returns (m: map<int, int>)
    ensures CoreMap(m, nodes)
  {
    m := map[];
    for i := 0 to |nodes|
      invariant CoreMap(m, nodes[..i])
    {
      var procs := nodes[i].procs;
      ghost var before := m;
      for k := 0 to |procs|
        invariant forall p :: Mapped(m, p) == if p in procs[..k] then Some(nodes[i].id) else Mapped(before, p)
      {
        assert procs[..k + 1] == procs[..k] + [procs[k]];
        m := m[procs[k] := nodes[i].id];
      }
      assert procs[..|procs|] == procs;
      assert nodes[..i + 1][..i] == nodes[..i];
    }
    assert nodes[..|nodes|] == nodes;
  }

  /** No processor belongs to two nodes or is listed twice, and node IDs are their positions. */
  ghost predicate Regular(nodes: seq<TopologyNode>) {
    && (forall i :: 0 <= i < |nodes| ==> nodes[i].id == i && Distinct(nodes[i].procs))
    && (forall i, j, p :: 0 <= i < |nodes| && 0 <= j < |nodes| && p in nodes[i].procs && p in nodes[j].procs ==> i == j)
  }

  function MappedTo(m: map<int, int>, node: int): int -> bool {
    c => c in m && m[c] == node
  }

  lemma MappedIsHeld(m: map<int, int>, nodes: seq<TopologyNode>, i: int, c: int)
    requires Regular(nodes) && CoreMap(m, nodes) && 0 <= i < |nodes|
    ensures MappedTo(m, i)(c) <==> c in nodes[i].procs
  {
    LastHolderHolds(nodes, c);
    assert Mapped(m, c) == LastHolder(nodes, c);
    if c in m {
      var j :| 0 <= j < |nodes| && c in nodes[j].procs && m[c] == nodes[j].id;
      assert nodes[j].id == j;
    }
  }

  // ---- CPUs as devices ----

  type PerNuma = map<int, seq<string>>

  /** The printed IDs of the CPUs of each node, nodes without CPUs left out. */
  ghost predicate CpusOf(per: PerNuma, m: map<int, int>, cpuIds: seq<int>) {
    forall n :: (if n in per then per[n] else []) == Apply(FormatInt, Filter(MappedTo(m, n), cpuIds))
      && (n in per ==> per[n] != [])
  }

  method CpusPerNuma(m: map<int, int>, cpuIds: seq<int>) returns (per: PerNuma)
    ensures CpusOf(per, m, cpuIds)
  {
    per := map[];
    for i := 0 to |cpuIds|
      invariant CpusOf(per, m, cpuIds[..i])
    {
      per := AddCpu(per, m, cpuIds[..i], cpuIds[i]);
      assert cpuIds[..i + 1] == cpuIds[..i] + [cpuIds[i]];
    }
    assert cpuIds[..|cpuIds|] == cpuIds;
  }

  method AddCpu(per: PerNuma, m: map<int, int>, ghost done: seq<int>, cpuID: int) returns (r: PerNuma)
    requires CpusOf(per, m, done)
    ensures CpusOf(r, m, done + [cpuID])
  {
    r := per;
    if cpuID in m {
      var node := m[cpuID];
      var list := if node in per then per[node] else [];
      r := per[node := list + [FormatInt(cpuID)]];
    }
    forall n
      ensures (if n in r then r[n] else []) == Apply(FormatInt, Filter(MappedTo(m, n), done + [cpuID]))
      ensures n in r ==> r[n] != []
    {
      FilterAppend(MappedTo(m, n), done, cpuID);
      ApplyOne(FormatInt, Filter(MappedTo(m, n), done), cpuID);
      assert (if n in per then per[n] else []) == Apply(FormatInt, Filter(MappedTo(m, n), done));
    }
  }

  lemma OneCpuDevice(devs: seq<Device>, ids: seq<string>, n: int, node: int)
    ensures DeviceCount(devs + [Device(CPU, ids, [n])], node, CPU) ==
      DeviceCount(devs, node, CPU) + if n == node then |ids| else 0
    ensures DeviceListed(devs + [Device(CPU, ids, [n])], node, CPU) <==> DeviceListed(devs, node, CPU) || n == node
  {
    var d := Device(CPU, ids, [n]);
    DeviceNext(devs, d, node, CPU);
    assert [n][1..] == [];
    assert Count([n], node) == if n == node then 1 else 0;
    assert |ids| * 1 == |ids| && |ids| * 0 == 0;
  }

  /** One device entry per node with CPUs, in whatever order the map yields them. */
  method CpuDevices(per: PerNuma) returns (devs: seq<Device>)
    ensures forall i :: 0 <= i < |devs| ==> devs[i].resource == CPU && devs[i].nodes != []
    ensures forall node :: DeviceCount(devs, node, CPU) == if node in per then |per[node]| else 0
    ensures forall node :: DeviceListed(devs, node, CPU) <==> node in per
    ensures forall id :: Printed(devs, id) <==> exists n :: n in per && id in per[n]
  {
    devs := [];
    var todo := per.Items;
    while todo != {}
      invariant todo <= per.Items && DevicesOf(devs, per, todo)
      decreases todo
    {
      var item :| item in todo;
      var (n, cpuList) := item;
      DevicesNext(devs, per, todo, n);
      todo := todo - {item};
      devs := devs + [Device(CPU, cpuList, [n])];
    }
  }

  /** The entries for the nodes that are no longer to do. */
  ghost predicate DevicesOf(devs: seq<Device>, per: PerNuma, todo: set<(int, seq<string>)>) {
    && (forall i :: 0 <= i < |devs| ==> devs[i].resource == CPU && devs[i].nodes != [])
    && (forall node :: DeviceCount(devs, node, CPU) == if Done(per, todo, node) then |per[node]| else 0)
    && (forall node :: DeviceListed(devs, node, CPU) <==> Done(per, todo, node))
    && (forall id :: Printed(devs, id) <==> exists n :: Done(per, todo, n) && id in per[n])
  }

  lemma DoneNext(per: PerNuma, todo: set<(int, seq<string>)>, n: int, node: int)
    requires n in per && (n, per[n]) in todo
    ensures Done(per, todo - {(n, per[n])}, node) <==> Done(per, todo, node) || node == n
  {
  }

  lemma PrintedDone(devs: seq<Device>, per: PerNuma, todo: set<(int, seq<string>)>, n: int, id: string)
    requires n in per && (n, per[n]) in todo
    requires Printed(devs, id) <==> exists x :: Done(per, todo, x) && id in per[x]
    ensures Printed(devs + [Device(CPU, per[n], [n])], id) <==>
      exists x :: Done(per, todo - {(n, per[n])}, x) && id in per[x]
  {
    PrintedNext(devs, Device(CPU, per[n], [n]), id);
    forall x ensures Done(per, todo - {(n, per[n])}, x) <==> Done(per, todo, x) || x == n {
      DoneNext(per, todo, n, x);
    }
  }

  lemma DevicesNext(devs: seq<Device>, per: PerNuma, todo: set<(int, seq<string>)>, n: int)
    requires DevicesOf(devs, per, todo) && n in per && (n, per[n]) in todo
    ensures DevicesOf(devs + [Device(CPU, per[n], [n])], per, todo - {(n, per[n])})
  {
    var more, rest := devs + [Device(CPU, per[n], [n])], todo - {(n, per[n])};
    forall node
      ensures DeviceCount(more, node, CPU) == if Done(per, rest, node) then |per[node]| else 0
      ensures DeviceListed(more, node, CPU) <==> Done(per, rest, node)
    {
      OneCpuDevice(devs, per[n], n, node);
      DoneNext(per, todo, n, node);
    }
    forall id ensures Printed(more, id) <==> exists x :: Done(per, rest, x) && id in per[x] {
      PrintedDone(devs, per, todo, n, id);
    }
  }

  predicate Done(per: PerNuma, todo: set<(int, seq<string>)>, node: int) {
    node in per && (node, per[node]) !in todo
  }

  /** The ID is among those of the cpu entries (`getCPUs`). */
  ghost predicate Printed(devices: seq<Device>, id: string) {
    exists i :: 0 <= i < |devices| && devices[i].resource == CPU && id in devices[i].ids
  }

  lemma PrintedNext(devices: seq<Device>, d: Device, id: string)
    ensures Printed(devices + [d], id) <==> Printed(devices, id) || (d.resource == CPU && id in d.ids)
  {
    var all := devices + [d];
    assert all[|devices|] == d;
    if Printed(devices, id) {
      var i :| 0 <= i < |devices| && devices[i].resource == CPU && id in devices[i].ids;
      assert all[i] == devices[i];
    }
  }

  // ---- Reserved CPUs ----

  ghost function CpuIds(devices: seq<Device>): set<string> {
    if devices == [] then {}
    else
      var d := devices[|devices| - 1];
      CpuIds(devices[..|devices| - 1]) + if d.resource == CPU then set id | id in d.ids else {}
  }

  lemma {:induction false} CpuIdsPrinted(devices: seq<Device>, id: string)
    ensures id in CpuIds(devices) <==> Printed(devices, id)
  {
    if devices != [] {
      var k := |devices| - 1;
      CpuIdsPrinted(devices[..k], id);
      PrintedNext(devices[..k], devices[k], id);
      assert devices[..k] + [devices[k]] == devices;
    }
  }

  /** Some CPU is listed without a NUMA node. */
  ghost predicate Homeless(devices: seq<Device>) {
    exists i :: 0 <= i < |devices| && devices[i].resource == CPU && devices[i].ids != [] && devices[i].nodes == []
  }

  /** `getCPUs`; false where it would panic on the missing topology of a listed CPU. */
  method GetCPUs(devices: seq<Device>) returns (ok: bool, cpus: set<string>)
    ensures ok <==> !Homeless(devices)
    ensures ok ==> cpus == CpuIds(devices)
  {
    cpus := {};
    for i := 0 to |devices|
      invariant cpus == CpuIds(devices[..i])
      invariant forall j :: 0 <= j < i ==>
        !(devices[j].resource == CPU && devices[j].ids != [] && devices[j].nodes == [])
    {
      assert devices[..i + 1][..i] == devices[..i];
      if devices[i].resource == CPU {
        if devices[i].ids != [] && devices[i].nodes == [] { return false, {}; }
        cpus := cpus + set id | id in devices[i].ids;
      }
    }
    assert devices[..|devices|] == devices;
    ok := true;
  }

  function NotListed(cpus: set<string>): int -> bool {
    p => FormatInt(p) !in cpus
  }

  /** The printed processors of the nodes with this ID that are not allocatable. */
  function ReservedList(nodes: seq<TopologyNode>, cpus: set<string>, n: int): seq<string> {
    if nodes == [] then []
    else
      var k := |nodes| - 1;
      ReservedList(nodes[..k], cpus, n) +
      (if nodes[k].id == n then Apply(FormatInt, Filter(NotListed(cpus), nodes[k].procs)) else [])
  }

  function ListAt(per: PerNuma, n: int): seq<string> {
    if n in per then per[n] else []
  }

  lemma PutList(per: PerNuma, node: int, list: seq<string>)
    ensures forall n :: ListAt(per[node := list], n) == (if n == node then list else ListAt(per, n))
  {
    var after := per[node := list];
    forall n ensures ListAt(after, n) == (if n == node then list else ListAt(per, n)) {
      assert n in after <==> n in per || n == node;
    }
  }

  lemma PrintedPrefix(keep: int -> bool, xs: seq<int>, i: nat)
    requires i < |xs|
    ensures Apply(FormatInt, Filter(keep, xs[..i + 1])) ==
      Apply(FormatInt, Filter(keep, xs[..i])) + if keep(xs[i]) then [FormatInt(xs[i])] else []
  {
    assert xs[..i + 1] == xs[..i] + [xs[i]];
    FilterAppend(keep, xs[..i], xs[i]);
    ApplyOne(FormatInt, Filter(keep, xs[..i]), xs[i]);
  }

  /** The inner loops of `makeReservedCPUMap`, for one node. */
  method ReserveNode(per: PerNuma, node: TopologyNode, cpus: set<string>) returns (r: PerNuma)
    ensures forall n :: n != node.id ==> ListAt(r, n) == ListAt(per, n)
    ensures ListAt(r, node.id) == ListAt(per, node.id) + Apply(FormatInt, Filter(NotListed(cpus), node.procs))
  {
    r := per;
    var nodeID := node.id;
    ghost var p := NotListed(cpus);
    for i := 0 to |node.procs|
      invariant forall n :: n != nodeID ==> ListAt(r, n) == ListAt(per, n)
      invariant ListAt(r, nodeID) == ListAt(per, nodeID) + Apply(FormatInt, Filter(p, node.procs[..i]))
    {
      var cpu := node.procs[i];
      PrintedPrefix(p, node.procs, i);
      if FormatInt(cpu) !in cpus {
        PutList(r, nodeID, ListAt(r, nodeID) + [FormatInt(cpu)]);
        r := r[nodeID := ListAt(r, nodeID) + [FormatInt(cpu)]];
      }
    }
    assert node.procs[..|node.procs|] == node.procs;
  }

  /** `makeReservedCPUMap`. */
  method MakeReservedCPUMap(nodes: seq<TopologyNode>, devices: seq<Device>) returns (ok: bool, r: PerNuma)
    ensures ok <==> !Homeless(devices)
    ensures ok ==> forall n :: ListAt(r, n) == ReservedList(nodes, CpuIds(devices), n)
  {
    r := map[];
    var cpus;
    ok, cpus := GetCPUs(devices);
    if !ok { return; }
    for i := 0 to |nodes|
      invariant forall n :: ListAt(r, n) == ReservedList(nodes[..i], cpus, n)
    {
      assert nodes[..i + 1][..i] == nodes[..i];
      r := ReserveNode(r, nodes[i], cpus);
    }
    assert nodes[..|nodes|] == nodes;
  }

  lemma {:induction false} ReservedOfOther(nodes: seq<TopologyNode>, cpus: set<string>, n: int)
    requires forall i :: 0 <= i < |nodes| ==> nodes[i].id != n
    ensures ReservedList(nodes, cpus, n) == []
  {
    if nodes != [] {
      ReservedOfOther(nodes[..|nodes| - 1], cpus, n);
    }
  }

  lemma {:induction false} ReservedOfNode(nodes: seq<TopologyNode>, cpus: set<string>, n: int)
    requires 0 <= n < |nodes| && forall i :: 0 <= i < |nodes| ==> nodes[i].id == i
    ensures ReservedList(nodes, cpus, n) == Apply(FormatInt, Filter(NotListed(cpus), nodes[n].procs))
  {
    var k := |nodes| - 1;
    if n == k {
      ReservedOfOther(nodes[..k], cpus, n);
    } else {
      ReservedOfNode(nodes[..k], cpus, n);
    }
  }

  // ---- Capacity ----

  /** How the aggregator is put together (`NewResourcesAggregatorFromData`). */
  ghost predicate Assembled(nr: NodeResources, nodes: seq<TopologyNode>, cpuIds: seq<int>, plugin: seq<Device>,
      blocks: seq<MemoryBlock>, m: map<int, int>, per: PerNuma, devs: seq<Device>)
  {
    && CoreMap(m, nodes) && CpusOf(per, m, cpuIds)
    && (forall node :: DeviceCount(devs, node, CPU) == |ListAt(per, node)|)
    && (forall node :: DeviceListed(devs, node, CPU) <==> node in per)
    && (forall id :: Printed(devs, id) <==> exists n :: n in per && id in per[n])
    && AllocatableOf(nr.allocatable, plugin + devs, blocks)
    && (forall n :: ListAt(nr.reserved, n) == ReservedList(nodes, CpuIds(plugin + devs), n))
    && nr.zoneCount == |nodes|
  }

  /**
   `NewResourcesAggregatorFromData`. It panics exactly when a device plugin lists a CPU without a node;
   the CPUs it lists itself have one.
   */
  method NewResourcesAggregator(nodes: seq<TopologyNode>, cpuIds: seq<int>, plugin: seq<Device>,
      blocks: seq<MemoryBlock>, memoryCapacity: map<int, map<string, int>>, excluded: set<string>)
    returns (made: Option<NodeResources>, ghost m: map<int, int>, ghost per: PerNuma, ghost devs: seq<Device>)
    ensures made.Some? <==> !Homeless(plugin)
    ensures made.Some? ==>
      && Assembled(made.value, nodes, cpuIds, plugin, blocks, m, per, devs) && IndexOf(made.value.index, plugin + devs)
      && made.value.memoryCapacity == memoryCapacity && made.value.excluded == excluded
  {
    var core2node := MakeLogicalCoreIDToNodeIDMap(nodes);
    var cpusPerNuma := CpusPerNuma(core2node, cpuIds);
    var cpuDevs := CpuDevices(cpusPerNuma);
    m, per, devs := core2node, cpusPerNuma, cpuDevs;
    var allDevs := plugin + cpuDevs;
    HomelessPlugin(plugin, cpuDevs);
    var index := MakeResourceMap(allDevs);
    var allocatable := MakeNodeAllocatable(allDevs, blocks);
    var ok, reserved := MakeReservedCPUMap(nodes, allDevs);
    if !ok { return None, m, per, devs; }
    made := Some(NodeResources(|nodes|, allocatable, index, reserved, memoryCapacity, excluded));
  }

  lemma HomelessPlugin(plugin: seq<Device>, devs: seq<Device>)
    requires forall i :: 0 <= i < |devs| ==> devs[i].nodes != []
    ensures Homeless(plugin + devs) <==> Homeless(plugin)
  {
    var all := plugin + devs;
    assert forall i :: 0 <= i < |plugin| ==> all[i] == plugin[i];
    assert forall i :: |plugin| <= i < |all| ==> all[i] == devs[i - |plugin|];
  }

  lemma {:induction false} ConcatDevices(a: seq<Device>, b: seq<Device>, node: int, res: string)
    ensures DeviceCount(a + b, node, res) == DeviceCount(a, node, res) + DeviceCount(b, node, res)
    ensures DeviceListed(a + b, node, res) <==> DeviceListed(a, node, res) || DeviceListed(b, node, res)
    decreases |b|
  {
    if b == [] {
      assert a + b == a;
    } else {
      var k := |b| - 1;
      assert a + b == (a + b[..k]) + [b[k]] && b == b[..k] + [b[k]];
      ConcatDevices(a, b[..k], node, res);
      DeviceNext(a + b[..k], b[k], node, res);
      DeviceNext(b[..k], b[k], node, res);
    }
  }

  lemma {:induction false} NoDevices(devices: seq<Device>, node: int, res: string)
    requires forall i :: 0 <= i < |devices| ==> devices[i].resource != res
    ensures DeviceCount(devices, node, res) == 0 && !DeviceListed(devices, node, res)
  {
    if devices != [] {
      NoDevices(devices[..|devices| - 1], node, res);
    }
  }

  lemma {:induction false} NoBlocks(blocks: seq<MemoryBlock>, node: int, kind: string)
    requires forall i :: 0 <= i < |blocks| ==> blocks[i].kind != kind
    ensures MemoryCount(blocks, node, kind) == 0 && !MemoryListed(blocks, node, kind)
  {
    if blocks != [] {
      NoBlocks(blocks[..|blocks| - 1], node, kind);
    }
  }

  ghost predicate NoCpuPlugin(plugin: seq<Device>, blocks: seq<MemoryBlock>) {
    && (forall i :: 0 <= i < |plugin| ==> plugin[i].resource != CPU)
    && (forall i :: 0 <= i < |blocks| ==> blocks[i].kind != CPU)
  }
}
