/**
 What memory requests take from which zones, over all containers: `updateMemoryAvailable` and
 `Aggregate` of pkg/resourcemonitor/noderesourcesaggregator.go, by the amounts alone.
 */
module NumaRequests {
  import opened Strings
  import opened NumaDevices
  import opened NumaZones
  import opened NumaMemory
  import opened NumaAccounting

  // ---- What a request says ----

  /** A memory entry with nodes to take from and one size. */
  predicate WellFormed(ri: ResourceInfo) {
    IsMemory(ri.name) && ri.numaNodeIds != [] && |ri.data| == 1 && Atoi(ri.data[0]).Some?
  }

  function Size(ri: ResourceInfo): int
    requires WellFormed(ri)
  {
    Atoi(ri.data[0]).value
  }

  /** The listed nodes up to the first zone of the topology without this kind of memory, where the code gives up. */
  function Reached(z: Zones, name: string, nodes: seq<int>): (r: seq<int>)
    ensures r <= nodes
    ensures forall i :: 0 <= i < |r| && r[i] in z ==> name in z[r[i]]
    ensures |r| < |nodes| ==> nodes[|r|] in z && name !in z[nodes[|r|]]
  {
    if nodes == [] || (nodes[0] in z && name !in z[nodes[0]]) then []
    else [nodes[0]] + Reached(z, name, nodes[1..])
  }

  /** What those of the first `n` zones that are listed hold together, each counted once. */
  function Held(z: Zones, name: string, nodes: seq<int>, n: nat): int {
    if n == 0 then 0 else Held(z, name, nodes, n - 1) + if n - 1 in nodes then Available(z, n - 1, name) else 0
  }

  function Min(a: int, b: int): int {
    if a <= b then a else b
  }

  // ---- Draining, by the amounts ----

  lemma {:induction false} DrainUnlisted(z: Zones, name: string, nodes: seq<int>, size: int, other: int)
    requires other !in nodes
    ensures Available(Drain(z, name, nodes, size).zones, other, name) == Available(z, other, name)
    decreases |nodes|
  {
    if nodes != [] && size != 0 {
      var node := nodes[0];
      if node !in z || (name in z[node] && z[node][name].available == 0) {
        DrainUnlisted(z, name, nodes[1..], size, other);
      } else if name in z[node] {
        var a := z[node][name].available;
        SetShape(z, node, name, 0);
        SetShape(z, node, name, a - size);
        DrainUnlisted(Set(z, node, name, 0), name, nodes[1..], size - a, other);
      }
    }
  }

  /** Nodes after the first zone without this kind of memory do not matter. */
  lemma {:induction false} DrainReached(z: Zones, name: string, nodes: seq<int>, size: int)
    ensures Drain(z, name, nodes, size) == Drain(z, name, Reached(z, name, nodes), size)
    decreases |nodes|
  {
    var reached := Reached(z, name, nodes);
    if nodes != [] && size != 0 && reached != [] {
      var node := nodes[0];
      assert reached[1..] == Reached(z, name, nodes[1..]);
      if node !in z || z[node][name].available == 0 {
        DrainReached(z, name, nodes[1..], size);
      } else {
        var a := z[node][name].available;
        SetShape(z, node, name, 0);
        SameReached(z, Set(z, node, name, 0), name, nodes[1..]);
        DrainReached(Set(z, node, name, 0), name, nodes[1..], size - a);
      }
    }
  }

  lemma {:induction false} SameReached(a: Zones, b: Zones, name: string, nodes: seq<int>)
    requires SameShape(a, b)
    ensures Reached(a, name, nodes) == Reached(b, name, nodes)
  {
    if nodes != [] {
      ShapeKnown(a, b, nodes[0], name);
      SameReached(a, b, name, nodes[1..]);
    }
  }

  /** A change of listed zones only shows in what they hold. */
  lemma {:induction false} HeldDrop(a: Zones, b: Zones, name: string, nodes: seq<int>, n: nat)
    requires forall other :: other !in nodes ==> Available(b, other, name) == Available(a, other, name)
    ensures Total(a, name, n) - Total(b, name, n) == Held(a, name, nodes, n) - Held(b, name, nodes, n)
  {
    if n > 0 {
      HeldDrop(a, b, name, nodes, n - 1);
      assert n - 1 !in nodes ==> Available(b, n - 1, name) == Available(a, n - 1, name);
    }
  }

  lemma {:induction false} HeldSign(z: Zones, name: string, nodes: seq<int>, n: nat)
    requires NonNegative(z, name)
    ensures Held(z, name, nodes, n) >= 0
  {
    if n > 0 {
      HeldSign(z, name, nodes, n - 1);
      assert Available(z, n - 1, name) >= 0;
    }
  }

  lemma {:induction false} HeldNothing(z: Zones, name: string, nodes: seq<int>, n: nat)
    requires forall i :: 0 <= i < |nodes| ==> Available(z, nodes[i], name) == 0
    ensures Held(z, name, nodes, n) == 0
  {
    if n > 0 {
      HeldNothing(z, name, nodes, n - 1);
      if n - 1 in nodes {
        var i :| 0 <= i < |nodes| && nodes[i] == n - 1;
      }
    }
  }

  /** The rest of a request that was not satisfied means that the listed zones, all with this kind, are empty. */
  lemma DrainedEmpty(z: Zones, name: string, nodes: seq<int>, size: int, n: nat)
    requires size >= 0 && NonNegative(z, name) && Reached(z, name, nodes) == nodes
    requires Drain(z, name, nodes, size).rest > 0
    ensures Held(Drain(z, name, nodes, size).zones, name, nodes, n) == 0
  {
    var after := Drain(z, name, nodes, size).zones;
    var stop := DrainExhausts(z, name, nodes, size);
    forall i | 0 <= i < |nodes| ensures Available(after, nodes[i], name) == 0 {
      assert nodes[i] in after ==> Available(after, nodes[i], name) == 0;
    }
    HeldNothing(after, name, nodes, n);
  }

  lemma DrainTakes(z: Zones, name: string, nodes: seq<int>, size: int, n: nat)
    requires size >= 0 && NonNegative(z, name) && Reached(z, name, nodes) == nodes
    requires forall node :: node in z ==> 0 <= node < n
    ensures Total(z, name, n) - Total(Drain(z, name, nodes, size).zones, name, n) ==
      Min(size, Held(z, name, nodes, n))
  {
    var d := Drain(z, name, nodes, size);
    DrainConserves(z, name, nodes, size, n);
    DrainBounds(z, name, nodes, size);
    forall other | other !in nodes ensures Available(d.zones, other, name) == Available(z, other, name) {
      DrainUnlisted(z, name, nodes, size, other);
    }
    HeldDrop(z, d.zones, name, nodes, n);
    HeldSign(d.zones, name, nodes, n);
    if d.rest > 0 {
      DrainedEmpty(z, name, nodes, size, n);
    }
  }

  // ---- One entry ----

  /** How much an entry lowers the total of a kind of memory. */
  function Taken(z: Zones, ri: ResourceInfo, res: string, n: nat): int {
    if ri.name != res || !WellFormed(ri) then 0
    else Min(Size(ri), Held(z, res, Reached(z, res, ri.numaNodeIds), n))
  }

  ghost predicate ZonesBelow(z: Zones, n: nat) {
    forall node :: node in z ==> 0 <= node < n
  }

  lemma ReachedTwice(z: Zones, name: string, nodes: seq<int>)
    ensures Reached(z, name, Reached(z, name, nodes)) == Reached(z, name, nodes)
  {
  }

  /** An entry that is no well-formed request for this kind of memory leaves it as it is. */
  lemma OtherEntry(idx: Index, z: Zones, ri: ResourceInfo, res: string, node: int)
    requires Process(idx, z, ri).Some? && IsMemory(res) && !(ri.name == res && WellFormed(ri))
    ensures Available(Process(idx, z, ri).value, node, res) == Available(z, node, res)
  {
    if IsMemory(ri.name) {
      MemoryShape(z, ri);
    } else if node in z {
      TakeCounts(idx, z, ri.name, ri.data, node, res);
    } else {
      TakeShape(idx, z, ri.name, ri.data);
    }
  }

  lemma {:induction false} SameTotal(a: Zones, b: Zones, res: string, n: nat)
    requires forall node :: Available(b, node, res) == Available(a, node, res)
    ensures Total(a, res, n) == Total(b, res, n)
  {
    if n > 0 {
      SameTotal(a, b, res, n - 1);
    }
  }

  /**
   A well-formed request that is not negative lowers the total by its size, or by all that the distinct
   listed zones hold if that is less; zones that are not listed stay as they are. All other entries take
   nothing of this kind of memory.
   */
  lemma EntryTakes(idx: Index, z: Zones, ri: ResourceInfo, res: string, n: nat)
    requires Process(idx, z, ri).Some? && IsMemory(res) && NonNegative(z, res) && ZonesBelow(z, n)
    requires NoNegativeRequest([ri])
    ensures var after := Process(idx, z, ri).value;
      && Total(z, res, n) - Total(after, res, n) == Taken(z, ri, res, n)
      && forall node :: node !in ri.numaNodeIds ==> Available(after, node, res) == Available(z, node, res)
  {
    var after := Process(idx, z, ri).value;
    assert [ri][0] == ri;
    if ri.name == res && WellFormed(ri) {
      var reached := Reached(z, res, ri.numaNodeIds);
      DrainReached(z, res, ri.numaNodeIds, Size(ri));
      ReachedTwice(z, res, ri.numaNodeIds);
      DrainTakes(z, res, reached, Size(ri), n);
      forall node | node !in ri.numaNodeIds ensures Available(after, node, res) == Available(z, node, res) {
        DrainUnlisted(z, res, ri.numaNodeIds, Size(ri), node);
      }
    } else {
      forall node ensures Available(after, node, res) == Available(z, node, res) {
        OtherEntry(idx, z, ri, res, node);
      }
      SameTotal(z, after, res, n);
    }
  }

  /** A listed zone drops only if the zones of the topology listed before it end up empty. */
  lemma EntryInOrder(idx: Index, z: Zones, ri: ResourceInfo, j: nat)
    requires WellFormed(ri) && Size(ri) >= 0 && NonNegative(z, ri.name) && j < |ri.numaNodeIds|
    requires Process(idx, z, ri).Some? && Reduced(z, Process(idx, z, ri).value, ri.numaNodeIds[j], ri.name)
    requires forall i :: 0 <= i < j ==> ri.numaNodeIds[i] != ri.numaNodeIds[j]
    ensures EmptyBefore(Process(idx, z, ri).value, ri.name, ri.numaNodeIds, j)
  {
    DrainInOrder(z, ri.name, ri.numaNodeIds, Size(ri), j);
  }

  /** An entry raises no amount exactly when its size is not negative or it reaches no zone with memory left. */
  lemma EntryLowersExactly(idx: Index, z: Zones, ri: ResourceInfo)
    requires WellFormed(ri) && NonNegative(z, ri.name) && Process(idx, z, ri).Some?
    ensures (forall node :: Available(Process(idx, z, ri).value, node, ri.name) <= Available(z, node, ri.name)) <==>
      Size(ri) >= 0 || !Reaches(z, ri.name, ri.numaNodeIds)
  {
    DrainLowersExactly(z, ri.name, ri.numaNodeIds, Size(ri));
  }

  // ---- All entries ----

  /** What the entries take one after the other. */
  function TakenByAll(idx: Index, z: Zones, ris: seq<ResourceInfo>, res: string, n: nat): int {
    if ris == [] then 0
    else
      var k := |ris| - 1;
      var before := ProcessAll(idx, z, ris[..k]);
      TakenByAll(idx, z, ris[..k], res, n) + if before.None? then 0 else Taken(before.value, ris[k], res, n)
  }

  /** Over all entries the drops add up. */
  lemma {:induction false} EntriesTake(idx: Index, z: Zones, ris: seq<ResourceInfo>, res: string, n: nat)
    requires ProcessAll(idx, z, ris).Some? && IsMemory(res) && NonNegative(z, res) && ZonesBelow(z, n)
    requires NoNegativeRequest(ris)
    ensures Total(z, res, n) - Total(ProcessAll(idx, z, ris).value, res, n) == TakenByAll(idx, z, ris, res, n)
  {
    if ris != [] {
      var k := |ris| - 1;
      var before := ProcessAll(idx, z, ris[..k]).value;
      assert forall i :: 0 <= i < k ==> ris[..k][i] == ris[i];
      assert [ris[k]][0] == ris[k];
      EntriesTake(idx, z, ris[..k], res, n);
      MemoryBounds(idx, z, ris[..k], res);
      ProcessShape(idx, z, ris[..k]);
      EntryTakes(idx, before, ris[k], res, n);
    }
  }

  // ---- Containers pinned to one zone ----

  /** Every request for this kind of memory lists one node. */
  ghost predicate Pinned(ris: seq<ResourceInfo>, res: string) {
    forall i :: 0 <= i < |ris| && ris[i].name == res ==> |ris[i].numaNodeIds| <= 1
  }

  /** What the requests for one node ask for together. */
  function Requested(ris: seq<ResourceInfo>, res: string, node: int): int {
    if ris == [] then 0
    else
      var k := |ris| - 1;
      Requested(ris[..k], res, node) +
      if ris[k].name == res && WellFormed(ris[k]) && node in ris[k].numaNodeIds then Size(ris[k]) else 0
  }

  lemma {:induction false} RequestedSign(ris: seq<ResourceInfo>, res: string, node: int)
    requires NoNegativeRequest(ris)
    ensures Requested(ris, res, node) >= 0
  {
    if ris != [] {
      var k := |ris| - 1;
      assert forall i :: 0 <= i < k ==> ris[..k][i] == ris[i];
      RequestedSign(ris[..k], res, node);
    }
  }

  lemma DrainOne(z: Zones, name: string, node: int, size: int)
    requires size >= 0 && NonNegative(z, name)
    ensures var left := Available(z, node, name) - size;
      Available(Drain(z, name, [node], size).zones, node, name) == if left < 0 then 0 else left
  {
    assert [node][1..] == [] && Available(z, node, name) >= 0;
    if Known(z, node, name) {
      SetShape(z, node, name, 0);
      SetShape(z, node, name, z[node][name].available - size);
    }
  }

  lemma PinnedEntry(idx: Index, z: Zones, ri: ResourceInfo, res: string, node: int)
    requires Process(idx, z, ri).Some? && IsMemory(res) && NonNegative(z, res)
    requires ri.name == res ==> |ri.numaNodeIds| <= 1
    requires NoNegativeRequest([ri])
    ensures var left := Available(z, node, res) -
        if ri.name == res && WellFormed(ri) && node in ri.numaNodeIds then Size(ri) else 0;
      Available(Process(idx, z, ri).value, node, res) == if left < 0 then 0 else left
  {
    assert [ri][0] == ri && Available(z, node, res) >= 0;
    if !(ri.name == res && WellFormed(ri)) {
      OtherEntry(idx, z, ri, res, node);
    } else if node !in ri.numaNodeIds {
      DrainUnlisted(z, res, ri.numaNodeIds, Size(ri), node);
    } else {
      assert ri.numaNodeIds == [node];
      DrainOne(z, res, node, Size(ri));
    }
  }

  /**
   With containers pinned to one zone each, a zone is left with what it had less what was requested of it,
   or with nothing.
   */
  lemma {:induction false} PinnedLeaves(idx: Index, z: Zones, ris: seq<ResourceInfo>, res: string, node: int)
    requires ProcessAll(idx, z, ris).Some? && IsMemory(res) && NonNegative(z, res)
    requires Pinned(ris, res) && NoNegativeRequest(ris)
    ensures var left := Available(z, node, res) - Requested(ris, res, node);
      Available(ProcessAll(idx, z, ris).value, node, res) == if left < 0 then 0 else left
  {
    if ris == [] {
      assert Available(z, node, res) >= 0;
    } else {
      var k := |ris| - 1;
      assert forall i :: 0 <= i < k ==> ris[..k][i] == ris[i];
      assert [ris[k]][0] == ris[k];
      PinnedLeaves(idx, z, ris[..k], res, node);
      MemoryBounds(idx, z, ris[..k], res);
      PinnedEntry(idx, ProcessAll(idx, z, ris[..k]).value, ris[k], res, node);
      RequestedSign(ris[..k], res, node);
      RequestedSign(ris, res, node);
    }
  }

  // ---- What is reported ----

  /**
   The reported amounts of a kind of memory add up to the allocatable amounts less what the containers
   took.
   */
  lemma ReportedTotal(nr: NodeResources, devices: seq<Device>, blocks: seq<MemoryBlock>, ris: seq<ResourceInfo>,
      res: string)
    requires Consistent(nr, devices, blocks) && forall i :: 0 <= i < |blocks| ==> blocks[i].size >= 0
    requires ProcessAll(nr.index, InitialZones(nr), ris).Some? && IsMemory(res) && NoNegativeRequest(ris)
    ensures Total(ProcessAll(nr.index, InitialZones(nr), ris).value, res, nr.zoneCount) ==
      Total(InitialZones(nr), res, nr.zoneCount) - TakenByAll(nr.index, InitialZones(nr), ris, res, nr.zoneCount)
  {
    MemoryStart(nr, devices, blocks, res);
    EntriesTake(nr.index, InitialZones(nr), ris, res, nr.zoneCount);
  }
}
