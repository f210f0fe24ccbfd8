/**
 Draining memory across NUMA zones: conservation, bounds and order of `updateMemoryAvailable`
 (pkg/resourcemonitor/noderesourcesaggregator.go).
 */
module NumaMemory {
  import opened NumaZones

  /** Same zones, same resources, same allocatable and capacity; only available amounts may differ. */
  ghost predicate SameShape(a: Zones, b: Zones) {
    && a.Keys == b.Keys
    && (forall node :: node in a ==> a[node].Keys == b[node].Keys)
    && (forall node, res :: node in a && res in a[node] ==>
          a[node][res].allocatable == b[node][res].allocatable && a[node][res].capacity == b[node][res].capacity)
  }

  function Set(z: Zones, node: int, name: string, available: int): Zones
    requires Known(z, node, name)
  {
    z[node := z[node][name := z[node][name].(available := available)]]
  }

  lemma SetShape(z: Zones, node: int, name: string, available: int)
    requires Known(z, node, name)
    ensures SameShape(z, Set(z, node, name, available))
    ensures forall n, r ::
      Available(Set(z, node, name, available), n, r) == if n == node && r == name then available else Available(z, n, r)
  {
  }

  lemma ShapeTrans(a: Zones, b: Zones, c: Zones)
    requires SameShape(a, b) && SameShape(b, c)
    ensures SameShape(a, c)
  {
  }

  lemma {:induction false} DrainShape(z: Zones, name: string, nodes: seq<int>, size: int)
    ensures SameShape(z, Drain(z, name, nodes, size).zones)
    ensures forall n, r :: r != name ==> Available(Drain(z, name, nodes, size).zones, n, r) == Available(z, n, r)
    decreases |nodes|
  {
    if nodes != [] && size != 0 {
      var node := nodes[0];
      if node !in z {
        DrainShape(z, name, nodes[1..], size);
      } else if name in z[node] {
        var a := z[node][name].available;
        if a == 0 {
          DrainShape(z, name, nodes[1..], size);
        } else if size >= a {
          SetShape(z, node, name, 0);
          DrainShape(Set(z, node, name, 0), name, nodes[1..], size - a);
          ShapeTrans(z, Set(z, node, name, 0), Drain(z, name, nodes, size).zones);
        } else {
          SetShape(z, node, name, a - size);
        }
      }
    }
  }

  // ---- Conservation ----

  /** Available memory of a kind over the first `n` zones. */
  function Total(z: Zones, name: string, n: nat): int {
    if n == 0 then 0 else Total(z, name, n - 1) + Available(z, n - 1, name)
  }

  lemma {:induction false} TotalSet(z: Zones, node: int, name: string, available: int, n: nat)
    requires Known(z, node, name)
    ensures Total(Set(z, node, name, available), name, n) ==
      Total(z, name, n) + if 0 <= node < n then available - Available(z, node, name) else 0
  {
    if n > 0 {
      TotalSet(z, node, name, available, n - 1);
    }
  }

  /** The drop over all zones and the unsatisfied rest add up to the request, whatever its sign. */
  lemma {:induction false} DrainConserves(z: Zones, name: string, nodes: seq<int>, size: int, n: nat)
    requires forall node :: node in z ==> 0 <= node < n
    ensures var d := Drain(z, name, nodes, size);
      Total(z, name, n) - Total(d.zones, name, n) + d.rest == size
    decreases |nodes|
  {
    if nodes != [] && size != 0 {
      var node := nodes[0];
      if node !in z {
        DrainConserves(z, name, nodes[1..], size, n);
      } else if name in z[node] {
        var a := z[node][name].available;
        if a == 0 {
          DrainConserves(z, name, nodes[1..], size, n);
        } else if size >= a {
          TotalSet(z, node, name, 0, n);
          DrainConserves(Set(z, node, name, 0), name, nodes[1..], size - a, n);
        } else {
          TotalSet(z, node, name, a - size, n);
        }
      }
    }
  }

  // ---- Bounds ----

  ghost predicate NonNegative(z: Zones, name: string) {
    forall node :: Available(z, node, name) >= 0
  }

  /** A non-negative request only lowers amounts, and never below zero. */
  lemma {:induction false} DrainBounds(z: Zones, name: string, nodes: seq<int>, size: int)
    requires size >= 0 && NonNegative(z, name)
    ensures var d := Drain(z, name, nodes, size);
      0 <= d.rest <= size && forall node :: 0 <= Available(d.zones, node, name) <= Available(z, node, name)
    decreases |nodes|
  {
    if nodes != [] && size != 0 {
      var node := nodes[0];
      if node !in z {
        DrainBounds(z, name, nodes[1..], size);
      } else if name in z[node] {
        var a := z[node][name].available;
        assert Available(z, node, name) == a;
        if a == 0 {
          DrainBounds(z, name, nodes[1..], size);
        } else if size >= a {
          SetShape(z, node, name, 0);
          DrainBounds(Set(z, node, name, 0), name, nodes[1..], size - a);
        } else {
          SetShape(z, node, name, a - size);
        }
      }
    }
  }

  // ---- Order ----

  ghost predicate Reduced(z: Zones, after: Zones, node: int, name: string) {
    Available(after, node, name) < Available(z, node, name)
  }

  /** Every known zone listed before `j` has nothing left. */
  ghost predicate EmptyBefore(after: Zones, name: string, nodes: seq<int>, j: nat) {
    forall i :: 0 <= i < j && i < |nodes| && nodes[i] in after ==> Available(after, nodes[i], name) == 0
  }

  /** When a later zone is reduced, the first listed zone is unknown or left empty. */
  lemma PastHead(z: Zones, name: string, nodes: seq<int>, size: int, other: int) returns (next: Zones, left: int)
    requires size >= 0 && NonNegative(z, name) && nodes != [] && other != nodes[0]
    requires Reduced(z, Drain(z, name, nodes, size).zones, other, name)
    ensures left >= 0 && NonNegative(next, name) && Available(next, other, name) == Available(z, other, name)
    ensures Drain(z, name, nodes, size) == Drain(next, name, nodes[1..], left)
    ensures nodes[0] in Drain(z, name, nodes, size).zones ==> Available(next, nodes[0], name) == 0
  {
    var node := nodes[0];
    DrainShape(z, name, nodes, size);
    next, left := z, size;
    if node in z && name in z[node] && z[node][name].available != 0 {
      var a := z[node][name].available;
      assert Available(z, node, name) == a;
      SetShape(z, node, name, a - size);
      SetShape(z, node, name, 0);
      assert size >= a;
      next, left := Set(z, node, name, 0), size - a;
    }
  }

  /** A listed zone is reduced only after every known zone listed before it is empty. */
  lemma {:induction false} DrainInOrder(z: Zones, name: string, nodes: seq<int>, size: int, j: nat)
    requires size >= 0 && NonNegative(z, name) && j < |nodes|
    requires Reduced(z, Drain(z, name, nodes, size).zones, nodes[j], name)
    requires forall i :: 0 <= i < j ==> nodes[i] != nodes[j]
    ensures EmptyBefore(Drain(z, name, nodes, size).zones, name, nodes, j)
    decreases |nodes|
  {
    if j > 0 {
      var after, rest := Drain(z, name, nodes, size).zones, nodes[1..];
      assert nodes[j] == rest[j - 1] && nodes[0] != nodes[j];
      var next, left := PastHead(z, name, nodes, size, nodes[j]);
      DrainInOrder(next, name, rest, left, j - 1);
      DrainBounds(next, name, rest, left);
      assert 0 <= Available(after, nodes[0], name) <= Available(next, nodes[0], name);
      InOrderTail(z, after, name, nodes, j);
    }
  }

  lemma InOrderTail(z: Zones, after: Zones, name: string, nodes: seq<int>, j: nat)
    requires 0 < j < |nodes| && EmptyBefore(after, name, nodes[1..], j - 1)
    requires nodes[0] in after ==> Available(after, nodes[0], name) == 0
    ensures EmptyBefore(after, name, nodes, j)
  {
    forall i | 0 <= i < j && nodes[i] in after ensures Available(after, nodes[i], name) == 0 {
      if i > 0 { assert nodes[i] == nodes[1..][i - 1]; }
    }
  }

  /** Something is left unsatisfied only if the listed zones are empty up to one without this kind of memory. */
  lemma {:induction false} DrainExhausts(z: Zones, name: string, nodes: seq<int>, size: int) returns (stop: nat)
    requires size >= 0 && NonNegative(z, name) && Drain(z, name, nodes, size).rest > 0
    ensures stop <= |nodes| && EmptyBefore(Drain(z, name, nodes, size).zones, name, nodes, stop)
    ensures stop < |nodes| ==> nodes[stop] in z && name !in z[nodes[stop]]
    decreases |nodes|
  {
    var after := Drain(z, name, nodes, size).zones;
    DrainShape(z, name, nodes, size);
    DrainBounds(z, name, nodes, size);
    if nodes == [] {
      stop := 0;
    } else {
      var node, rest := nodes[0], nodes[1..];
      if node in z && name !in z[node] {
        stop := 0;
      } else {
        if node !in z || z[node][name].available == 0 {
          stop := DrainExhausts(z, name, rest, size);
        } else {
          var a := z[node][name].available;
          SetShape(z, node, name, 0);
          DrainBounds(Set(z, node, name, 0), name, rest, size - a);
          stop := DrainExhausts(Set(z, node, name, 0), name, rest, size - a);
        }
        forall i | 0 <= i < stop + 1 && i < |nodes| && nodes[i] in after ensures Available(after, nodes[i], name) == 0 {
          if i > 0 { assert nodes[i] == rest[i - 1]; }
        }
        stop := stop + 1;
      }
    }
  }

  // ---- Negative requests ----

  /** A request gets as far as a zone with something available. */
  predicate Reaches(z: Zones, name: string, nodes: seq<int>) {
    nodes != [] &&
      if nodes[0] !in z then Reaches(z, name, nodes[1..])
      else name in z[nodes[0]] && (z[nodes[0]][name].available != 0 || Reaches(z, name, nodes[1..]))
  }

  lemma {:induction false} NegativeRaises(z: Zones, name: string, nodes: seq<int>, size: int)
    requires size < 0 && NonNegative(z, name)
    ensures
      if Reaches(z, name, nodes) then
        exists node :: Available(Drain(z, name, nodes, size).zones, node, name) > Available(z, node, name)
      else Drain(z, name, nodes, size).zones == z
    decreases |nodes|
  {
    if nodes != [] {
      var node := nodes[0];
      if node !in z || (name in z[node] && z[node][name].available == 0) {
        NegativeRaises(z, name, nodes[1..], size);
      } else if name in z[node] {
        assert Available(z, node, name) >= 0;
        SetShape(z, node, name, z[node][name].available - size);
        assert Available(Drain(z, name, nodes, size).zones, node, name) > Available(z, node, name);
      }
    }
  }

  /** A request raises no available amount exactly when it is non-negative or reaches no zone with memory left. */
  lemma DrainLowersExactly(z: Zones, name: string, nodes: seq<int>, size: int)
    requires NonNegative(z, name)
    ensures (forall node :: Available(Drain(z, name, nodes, size).zones, node, name) <= Available(z, node, name)) <==>
      size >= 0 || !Reaches(z, name, nodes)
  {
    if size >= 0 {
      DrainBounds(z, name, nodes, size);
    } else {
      NegativeRaises(z, name, nodes, size);
    }
  }

  /** A request of -1 on a zone with 5 left makes it 6, one more than is allocatable. */
  lemma NegativeRequestRaises(name: string)
    ensures var z := map[0 := map[name := Counter(5, 5, 5)]];
      NonNegative(z, name) && Drain(z, name, [0], -1) == Drained(map[0 := map[name := Counter(6, 5, 5)]], 0)
  {
    var z := map[0 := map[name := Counter(5, 5, 5)]];
    assert z[0][name] == Counter(5, 5, 5);
    assert z[0][name := Counter(6, 5, 5)] == map[name := Counter(6, 5, 5)];
    assert z[0 := map[name := Counter(6, 5, 5)]] == map[0 := map[name := Counter(6, 5, 5)]];
  }
}
