/**
 What a node can allocate per NUMA zone, and which zone each device belongs to:
 `makeNodeAllocatable` and `makeResourceMap` of pkg/resourcemonitor/noderesourcesaggregator.go.
 */
module NumaDevices {
  import opened Strings

  /** `ContainerDevices`: device IDs of one resource and the NUMA nodes of their topology. */
  datatype Device = Device(resource: string, ids: seq<string>, nodes: seq<int>)

  /** `ContainerMemory`; a None topology is nil. */
  datatype MemoryBlock = MemoryBlock(kind: string, size: int, nodes: Option<seq<int>>)

  type Allocatable = map<int, map<string, int>>

  type Index = map<string, map<string, int>>

  function At(a: Allocatable, node: int, res: string): int {
    if node in a && res in a[node] then a[node][res] else 0
  }

  predicate Has(a: Allocatable, node: int, res: string) {
    node in a && res in a[node]
  }

  function Add(a: Allocatable, node: int, res: string, n: int): Allocatable {
    a[node := (if node in a then a[node] else map[])[res := At(a, node, res) + n]]
  }

  // ---- Specification ----

  function Count(nodes: seq<int>, node: int): nat {
    if nodes == [] then 0 else (if nodes[0] == node then 1 else 0) + Count(nodes[1..], node)
  }

  /** Devices of a resource listed for a node, over all entries. */
  function DeviceCount(devices: seq<Device>, node: int, res: string): nat {
    if devices == [] then 0
    else
      var k := |devices| - 1;
      DeviceCount(devices[..k], node, res) +
      (if devices[k].resource == res then |devices[k].ids| * Count(devices[k].nodes, node) else 0)
  }

  function Nodes(b: MemoryBlock): seq<int> {
    if b.nodes.Some? then b.nodes.value else []
  }

  function MemoryCount(blocks: seq<MemoryBlock>, node: int, kind: string): int {
    if blocks == [] then 0
    else
      var k := |blocks| - 1;
      MemoryCount(blocks[..k], node, kind) +
      (if blocks[k].kind == kind then blocks[k].size * Count(Nodes(blocks[k]), node) else 0)
  }

  ghost predicate DeviceListed(devices: seq<Device>, node: int, res: string) {
    exists i :: 0 <= i < |devices| && devices[i].resource == res && node in devices[i].nodes
  }

  ghost predicate MemoryListed(blocks: seq<MemoryBlock>, node: int, kind: string) {
    exists i :: 0 <= i < |blocks| && blocks[i].kind == kind && node in Nodes(blocks[i])
  }

  /** `a` has exactly the listed entries, with the right amounts. */
  ghost predicate AllocatableOf(a: Allocatable, devices: seq<Device>, blocks: seq<MemoryBlock>) {
    forall node, res ::
      && (Has(a, node, res) <==> DeviceListed(devices, node, res) || MemoryListed(blocks, node, res))
      && At(a, node, res) == DeviceCount(devices, node, res) + MemoryCount(blocks, node, res)
  }

  lemma {:induction false} CountAppend(nodes: seq<int>, n: int, node: int)
    ensures Count(nodes + [n], node) == Count(nodes, node) + (if n == node then 1 else 0)
  {
    if nodes == [] {
      assert nodes + [n] == [n] && [n][1..] == [];
    } else {
      assert (nodes + [n])[1..] == nodes[1..] + [n];
      CountAppend(nodes[1..], n, node);
    }
  }

  lemma AddAt(a: Allocatable, node: int, res: string, n: int, x: int, q: string)
    ensures Has(Add(a, node, res, n), x, q) <==> Has(a, x, q) || (x == node && q == res)
    ensures At(Add(a, node, res, n), x, q) == At(a, x, q) + (if x == node && q == res then n else 0)
  {
  }

  // ---- Methods ----

  /** Add the same amount under one resource for each listed node, as both loops do. */
  method AddForNodes(a: Allocatable, nodes: seq<int>, res: string, n: int) returns (r: Allocatable)
    ensures forall node, q :: Has(r, node, q) <==> Has(a, node, q) || (q == res && node in nodes)
    ensures forall node, q :: At(r, node, q) == At(a, node, q) + (if q == res then n * Count(nodes, node) else 0)
  {
    r := a;
    forall node ensures n * Count(nodes[..0], node) == 0 {
      assert Count(nodes[..0], node) == 0;
    }
    for i := 0 to |nodes|
      invariant forall node, q :: Has(r, node, q) <==> Has(a, node, q) || (q == res && node in nodes[..i])
      invariant forall node, q ::
        At(r, node, q) == At(a, node, q) + (if q == res then n * Count(nodes[..i], node) else 0)
    {
      ghost var before, done := r, nodes[..i];
      r := Add(r, nodes[i], res, n);
      assert nodes[..i + 1] == done + [nodes[i]];
      forall node, q
        ensures Has(r, node, q) <==> Has(a, node, q) || (q == res && node in nodes[..i + 1])
        ensures At(r, node, q) == At(a, node, q) + (if q == res then n * Count(nodes[..i + 1], node) else 0)
      {
        AddAt(before, nodes[i], res, n, node, q);
        CountAppend(done, nodes[i], node);
        assert n * (Count(done, node) + 1) == n * Count(done, node) + n;
      }
    }
    assert nodes[..|nodes|] == nodes;
  }

  lemma DeviceNext(devices: seq<Device>, d: Device, node: int, res: string)
    ensures DeviceCount(devices + [d], node, res) ==
      DeviceCount(devices, node, res) + (if d.resource == res then |d.ids| * Count(d.nodes, node) else 0)
    ensures DeviceListed(devices + [d], node, res) <==>
      DeviceListed(devices, node, res) || (d.resource == res && node in d.nodes)
  {
    var all := devices + [d];
    assert all[..|devices|] == devices && all[|devices|] == d;
    if DeviceListed(devices, node, res) {
      var i :| 0 <= i < |devices| && devices[i].resource == res && node in devices[i].nodes;
      assert all[i] == devices[i];
    }
  }

  lemma MemoryNext(blocks: seq<MemoryBlock>, b: MemoryBlock, node: int, kind: string)
    ensures MemoryCount(blocks + [b], node, kind) ==
      MemoryCount(blocks, node, kind) + (if b.kind == kind then b.size * Count(Nodes(b), node) else 0)
    ensures MemoryListed(blocks + [b], node, kind) <==>
      MemoryListed(blocks, node, kind) || (b.kind == kind && node in Nodes(b))
  {
    var all := blocks + [b];
    assert all[..|blocks|] == blocks && all[|blocks|] == b;
    if MemoryListed(blocks, node, kind) {
      var i :| 0 <= i < |blocks| && blocks[i].kind == kind && node in Nodes(blocks[i]);
      assert all[i] == blocks[i];
    }
  }

  /** `makeNodeAllocatable`. */
  method MakeNodeAllocatable(devices: seq<Device>, blocks: seq<MemoryBlock>) returns (a: Allocatable)
    ensures AllocatableOf(a, devices, blocks)
  {
    a := map[];
    for i := 0 to |devices|
      invariant AllocatableOf(a, devices[..i], [])
    {
      ghost var before := a;
      a := AddForNodes(a, devices[i].nodes, devices[i].resource, |devices[i].ids|);
      assert devices[..i + 1] == devices[..i] + [devices[i]];
      forall node, res
        ensures Has(a, node, res) <==> DeviceListed(devices[..i + 1], node, res) || MemoryListed([], node, res)
        ensures At(a, node, res) == DeviceCount(devices[..i + 1], node, res) + MemoryCount([], node, res)
      {
        DeviceNext(devices[..i], devices[i], node, res);
        assert Has(before, node, res) <==> DeviceListed(devices[..i], node, res) || MemoryListed([], node, res);
      }
    }
    assert devices[..|devices|] == devices;
    assert blocks[..0] == [];
    for i := 0 to |blocks|
      invariant AllocatableOf(a, devices, blocks[..i])
    {
      a := AddBlock(a, devices, blocks, i);
    }
    assert blocks[..|blocks|] == blocks;
  }

  method AddBlock(a: Allocatable, ghost devices: seq<Device>, blocks: seq<MemoryBlock>, i: nat) returns (r: Allocatable)
    requires i < |blocks| && AllocatableOf(a, devices, blocks[..i])
    ensures AllocatableOf(r, devices, blocks[..i + 1])
  {
    var b := blocks[i];
    r := a;
    if b.nodes.Some? {
      r := AddForNodes(a, b.nodes.value, b.kind, b.size);
    }
    assert blocks[..i + 1] == blocks[..i] + [b];
    forall node, res
      ensures Has(r, node, res) <==> DeviceListed(devices, node, res) || MemoryListed(blocks[..i + 1], node, res)
      ensures At(r, node, res) == DeviceCount(devices, node, res) + MemoryCount(blocks[..i + 1], node, res)
    {
      MemoryNext(blocks[..i], b, node, res);
      assert Has(a, node, res) <==> DeviceListed(devices, node, res) || MemoryListed(blocks[..i], node, res);
      assert b.nodes.None? ==> b.size * Count(Nodes(b), node) == 0;
    }
  }

  // ---- The index ----

  /** The last node of the last entry with nodes that lists this ID of the resource. */
  function LastNode(devices: seq<Device>, res: string, id: string): Option<int> {
    if devices == [] then None
    else
      var d := devices[|devices| - 1];
      if d.resource == res && id in d.ids && d.nodes != [] then Some(d.nodes[|d.nodes| - 1])
      else LastNode(devices[..|devices| - 1], res, id)
  }

  function Lookup(idx: Index, res: string, id: string): Option<int> {
    if res in idx && id in idx[res] then Some(idx[res][id]) else None
  }

  /** The index knows the listed devices and no others, each by the node listed last. */
  ghost predicate IndexOf(idx: Index, devices: seq<Device>) {
    && (forall res :: res in idx <==> exists i :: 0 <= i < |devices| && devices[i].resource == res)
    && (forall res, id :: Lookup(idx, res, id) == LastNode(devices, res, id))
  }

  ghost predicate Indexed(devices: seq<Device>, res: string, id: string, node: int) {
    exists i :: 0 <= i < |devices| && devices[i].resource == res && id in devices[i].ids && node in devices[i].nodes
  }

  lemma {:induction false} LastNodeIndexed(devices: seq<Device>, res: string, id: string)
    requires LastNode(devices, res, id).Some?
    ensures Indexed(devices, res, id, LastNode(devices, res, id).value)
  {
    var k := |devices| - 1;
    var d := devices[k];
    if d.resource == res && id in d.ids && d.nodes != [] {
      assert d.nodes[|d.nodes| - 1] in d.nodes;
    } else {
      LastNodeIndexed(devices[..k], res, id);
      var i :| 0 <= i < k && devices[..k][i].resource == res && id in devices[..k][i].ids
        && LastNode(devices, res, id).value in devices[..k][i].nodes;
      assert devices[..k][i] == devices[i];
    }
  }

  /** The two inner loops of `makeResourceMap`: later nodes override earlier ones. */
  method IndexDevice(m: map<string, int>, d: Device) returns (r: map<string, int>)
    ensures forall id :: id in r <==> id in m || (d.nodes != [] && id in d.ids)
    ensures forall id :: id in r ==> r[id] == if d.nodes != [] && id in d.ids then d.nodes[|d.nodes| - 1] else m[id]
  {
    r := m;
    for i := 0 to |d.nodes|
      invariant forall id :: id in r <==> id in m || (i > 0 && id in d.ids)
      invariant forall id :: id in r ==> r[id] == if i > 0 && id in d.ids then d.nodes[i - 1] else m[id]
    {
      for j := 0 to |d.ids|
        invariant forall id :: id in r <==> id in m || (i > 0 && id in d.ids) || id in d.ids[..j]
        invariant forall id :: id in r ==>
          r[id] == if id in d.ids[..j] then d.nodes[i] else if i > 0 && id in d.ids then d.nodes[i - 1] else m[id]
      {
        r := r[d.ids[j] := d.nodes[i]];
      }
      assert d.ids[..|d.ids|] == d.ids;
    }
  }

  /** `makeResourceMap`. */
  method MakeResourceMap(devices: seq<Device>) returns (idx: Index)
    ensures IndexOf(idx, devices)
  {
    idx := map[];
    for i := 0 to |devices|
      invariant IndexOf(idx, devices[..i])
    {
      idx := IndexNext(idx, devices[..i], devices[i]);
      assert devices[..i + 1] == devices[..i] + [devices[i]];
    }
    assert devices[..|devices|] == devices;
  }

  method IndexNext(idx: Index, ghost devices: seq<Device>, d: Device) returns (r: Index)
    requires IndexOf(idx, devices)
    ensures IndexOf(r, devices + [d])
  {
    var m := map[];
    if d.resource in idx { m := idx[d.resource]; }
    var m' := IndexDevice(m, d);
    r := idx[d.resource := m'];
    ghost var all := devices + [d];
    forall res, id ensures Lookup(r, res, id) == LastNode(all, res, id) {
      assert Lookup(idx, res, id) == LastNode(devices, res, id);
      assert all[..|devices|] == devices;
    }
    forall res ensures res in r <==> exists i :: 0 <= i < |all| && all[i].resource == res {
      ListedNext(devices, d, res);
    }
  }

  lemma ListedNext(devices: seq<Device>, d: Device, res: string)
    ensures (exists i :: 0 <= i < |devices + [d]| && (devices + [d])[i].resource == res) <==>
      d.resource == res || exists i :: 0 <= i < |devices| && devices[i].resource == res
  {
    var all := devices + [d];
    assert all[|devices|] == d;
    assert forall i :: 0 <= i < |devices| ==> all[i] == devices[i];
  }
}
