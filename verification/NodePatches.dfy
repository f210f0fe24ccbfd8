/**
 The patches of one node update: `createPatches` and `createExtendedResourcePatches` of
 pkg/nfd-master/nfd-master.go, and what they do to a node.
 */
module NodePatches {
  import opened Strings
  import opened Sorting
  import opened JsonPatch

  // ---- createPatches ----

  /** The arguments of `createPatches`: keys it may remove, what there is and what there should be. */
  datatype Diff = Diff(remove: set<string>, have: Items, want: Items, overwrite: bool) {
    function OpFor(k: string): Option<Op> {
      if k in want then
        if k !in have then Some(Add(want[k]))
        else if want[k] != have[k] && (k !in remove || overwrite) then Some(Replace(want[k]))
        else None
      else if k in remove && k in have then Some(Remove)
      else None
    }

    function Ops(c: Container): Ops {
      map t | t in (set k | k in remove + want.Keys :: Target(c, k)) && OpFor(t.key).Some? :: OpFor(t.key).value
    }

    lemma OpsAt(c: Container, t: Target)
      ensures t in Ops(c) <==> t.container == c && OpFor(t.key).Some?
      ensures t in Ops(c) ==> Ops(c)[t] == OpFor(t.key).value
    {
      if t.container == c && t.key in remove + want.Keys {
        assert t == Target(c, t.key);
      }
    }

    /** Where the operations lead from `cur`, which may differ from `have` on keys they do not touch. */
    function Result(cur: Items): Items {
      map k | k in cur.Keys + want.Keys && !(k in remove && k !in want) ::
        if k in want && (k !in cur || k !in remove || overwrite) then want[k] else cur[k]
    }

    predicate Current(cur: Items) {
      forall k :: k in remove + want.Keys ==> (k in have <==> k in cur) && (k in have ==> have[k] == cur[k])
    }
  }

  /** The first loop of `createPatches`. */
  method RemovePatches(d: Diff, c: Container) returns (patches: seq<Patch>, ghost ts: seq<Target>)
    ensures forall t :: t in ts <==> t.container == c && d.OpFor(t.key) == Some(Remove)
    ensures Listed(patches, ts, d.Ops(c))
  {
    ghost var ops := d.Ops(c);
    patches, ts := [], [];
    var todo := d.remove;
    while todo != {}
      invariant todo <= d.remove
      invariant forall t :: t in ts <==> t.container == c && t.key in d.remove - todo && d.OpFor(t.key) == Some(Remove)
      invariant Listed(patches, ts, ops)
    {
      var key :| key in todo;
      todo := todo - {key};
      d.OpsAt(c, Target(c, key));
      if key in d.have && key !in d.want {
        ListedExtend(patches, ts, ops, Target(c, key));
        patches := patches + [NewJsonPatch("remove", BasePath(c), key, "")];
        ts := ts + [Target(c, key)];
      }
    }
  }

  /** `createPatches`: the operations that bring `have` to `want`, removing only keys of `remove`. */
  method CreatePatches(d: Diff, c: Container) returns (patches: seq<Patch>, ghost ts: seq<Target>)
    ensures Lists(patches, ts, d.Ops(c))
    ensures Carries(patches, d.Ops(c))
  {
    ghost var ops := d.Ops(c);
    patches, ts := RemovePatches(d, c);
    var todo := d.want.Keys;
    while todo != {}
      invariant todo <= d.want.Keys
      invariant forall t :: t in ts <==> t.container == c && t.key !in todo && d.OpFor(t.key).Some?
      invariant Listed(patches, ts, ops)
    {
      var key :| key in todo;
      todo := todo - {key};
      d.OpsAt(c, Target(c, key));
      if key in d.have {
        if d.want[key] != d.have[key] && (key !in d.remove || d.overwrite) {
          ListedExtend(patches, ts, ops, Target(c, key));
          patches := patches + [NewJsonPatch("replace", BasePath(c), key, d.want[key])];
          ts := ts + [Target(c, key)];
        }
      } else {
        ListedExtend(patches, ts, ops, Target(c, key));
        patches := patches + [NewJsonPatch("add", BasePath(c), key, d.want[key])];
        ts := ts + [Target(c, key)];
      }
    }
    forall t ensures t in ts <==> t in ops {
      d.OpsAt(c, t);
    }
    assert Lists(patches, ts, ops);
  }

  /** The part of `Lists` that holds while the list is being built. */
  ghost predicate Listed(ps: seq<Patch>, ts: seq<Target>, ops: Ops) {
    && Distinct(ts)
    && |ps| == |ts|
    && (forall i :: 0 <= i < |ts| ==> ts[i] in ops && ps[i] == Render(ts[i], ops[ts[i]]))
  }

  lemma ListedExtend(ps: seq<Patch>, ts: seq<Target>, ops: Ops, t: Target)
    requires Listed(ps, ts, ops) && t in ops && t !in ts
    ensures Listed(ps + [Render(t, ops[t])], ts + [t], ops)
    ensures forall u :: u in ts + [t] <==> u in ts || u == t
  {
  }

  lemma DiffEffect(d: Diff, c: Container, cur: Items)
    requires d.Current(cur)
    ensures EffectOn(cur, c, d.Ops(c)) == d.Result(cur)
  {
    var after, goal := EffectOn(cur, c, d.Ops(c)), d.Result(cur);
    forall k ensures (k in after <==> k in goal) && (k in after ==> after[k] == goal[k]) {
      EffectOnAt(cur, c, d.Ops(c), k);
      d.OpsAt(c, Target(c, k));
      if k in d.remove + d.want.Keys {
        assert (k in d.have <==> k in cur) && (k in d.have ==> d.have[k] == cur[k]);
      }
    }
  }

  lemma DiffElsewhere(d: Diff, c: Container)
    ensures forall t :: t in d.Ops(c) ==> t.container == c
  {
    forall t | t in d.Ops(c) ensures t.container == c {
      d.OpsAt(c, t);
    }
  }

  lemma DiffApplicable(d: Diff, c: Container, node: Node)
    requires d.Current(node.Get(c))
    ensures Applicable(node, d.Ops(c))
  {
    forall t | t in d.Ops(c) ensures AppliesAt(node, t, d.Ops(c)[t]) {
      d.OpsAt(c, t);
    }
  }

  lemma DiffResult(node: Node, d: Diff, c: Container)
    requires d.Current(node.Get(c))
    ensures Effect(node, d.Ops(c)) == node.With(c, d.Result(node.Get(c)))
  {
    var after, goal := Effect(node, d.Ops(c)), node.With(c, d.Result(node.Get(c)));
    DiffEffect(d, c, node.Get(c));
    DiffElsewhere(d, c);
    forall other: Container ensures after.Get(other) == goal.Get(other) {
      EffectGet(node, d.Ops(c), other);
      if other != c {
        EffectOnNone(node.Get(other), other, d.Ops(c));
      }
    }
    SameNode(after, goal);
  }

  /**
   The patches of `createPatches`, in any order, apply without failure and lead to one map, whatever
   the overwrite setting, as long as the keys they deal with are still as they were read.
   */
  lemma CreatePatchesApply(node: Node, d: Diff, c: Container, ps: seq<Patch>, ts: seq<Target>, qs: seq<Patch>)
    requires Lists(ps, ts, d.Ops(c)) && PatchableTargets(d.Ops(c))
    requires d.Current(node.Get(c)) && multiset(qs) == multiset(ps)
    ensures ApplyAll(node, qs) == Some(node.With(c, d.Result(node.Get(c))))
  {
    ApplyShuffled(node, ps, ts, d.Ops(c), qs);
    ApplyListed(node, ps, ts, d.Ops(c));
    DiffApplicable(d, c, node);
    DiffResult(node, d, c);
  }

  lemma SameNode(a: Node, b: Node)
    requires forall c: Container :: a.Get(c) == b.Get(c)
    ensures a == b
  {
    assert a.Get(Labels) == b.Get(Labels) && a.Get(Annotations) == b.Get(Annotations);
    assert a.Get(Capacity) == b.Get(Capacity) && a.Get(Allocatable) == b.Get(Allocatable);
  }

  // ---- createExtendedResourcePatches ----

  /** Tracked resources that are on the node and no longer wanted, as listed. */
  function Stale(tracked: seq<string>, capacity: Items, want: Items): (r: seq<string>)
    ensures forall x :: x in r <==> x in tracked && x in capacity && x !in want
  {
    if tracked == [] then []
    else
      var rest := Stale(tracked[1..], capacity, want);
      assert tracked == [tracked[0]] + tracked[1..];
      if tracked[0] in capacity && tracked[0] !in want then [tracked[0]] + rest else rest
  }

  function RemovalPair(name: string): seq<Patch> {
    [NewJsonPatch("remove", BasePath(Capacity), name, ""), NewJsonPatch("remove", BasePath(Allocatable), name, "")]
  }

  function Removals(names: seq<string>): seq<Patch> {
    if names == [] then [] else RemovalPair(names[0]) + Removals(names[1..])
  }

  /** `asInt` prints the integer that a quantity stands for, as `AsInt64` and `FormatInt` do. */
  function ResourceOp(asInt: string -> string, capacity: Items, want: Items, t: Target): Option<Op> {
    if t.key !in want || t.container == Labels || t.container == Annotations then None
    else if t.key in capacity then
      if asInt(capacity[t.key]) != want[t.key] then Some(Replace(want[t.key])) else None
    else if t.container == Capacity then Some(Add(want[t.key]))
    else None
  }

  function ResourceOps(asInt: string -> string, capacity: Items, want: Items): Ops {
    map t | t in (set k | k in want :: Target(Capacity, k)) + (set k | k in want :: Target(Allocatable, k)) &&
            ResourceOp(asInt, capacity, want, t).Some? ::
      ResourceOp(asInt, capacity, want, t).value
  }

  lemma ResourceOpsAt(asInt: string -> string, capacity: Items, want: Items, t: Target)
    ensures t in ResourceOps(asInt, capacity, want) <==> ResourceOp(asInt, capacity, want, t).Some?
    ensures t in ResourceOps(asInt, capacity, want) ==>
      ResourceOps(asInt, capacity, want)[t] == ResourceOp(asInt, capacity, want, t).value
  {
    if t.key in want {
      assert t == Target(t.container, t.key);
    }
  }

  lemma {:induction false} StaleAppend(names: seq<string>, r: string, capacity: Items, want: Items)
    ensures Stale(names + [r], capacity, want) ==
      if r in capacity && r !in want then Stale(names, capacity, want) + [r] else Stale(names, capacity, want)
  {
    if names == [] {
      assert [] + [r] == [r] && [r][1..] == [];
    } else {
      assert (names + [r])[1..] == names[1..] + [r];
      StaleAppend(names[1..], r, capacity, want);
    }
  }

  lemma {:induction false} RemovalsAppend(names: seq<string>, r: string)
    ensures Removals(names + [r]) == Removals(names) + RemovalPair(r)
  {
    if names == [] {
      assert [] + [r] == [r] && [r][1..] == [];
    } else {
      assert (names + [r])[1..] == names[1..] + [r];
      RemovalsAppend(names[1..], r);
    }
  }

  lemma StaleStep(tracked: seq<string>, i: nat, capacity: Items, want: Items)
    requires i < |tracked|
    ensures var before := Removals(Stale(tracked[..i], capacity, want));
      Removals(Stale(tracked[..i + 1], capacity, want)) ==
        if tracked[i] in capacity && tracked[i] !in want then before + RemovalPair(tracked[i]) else before
  {
    assert tracked[..i + 1] == tracked[..i] + [tracked[i]];
    StaleAppend(tracked[..i], tracked[i], capacity, want);
    RemovalsAppend(Stale(tracked[..i], capacity, want), tracked[i]);
  }

  method StaleResourcePatches(tracked: seq<string>, capacity: Items, want: Items) returns (patches: seq<Patch>)
    ensures patches == Removals(Stale(tracked, capacity, want))
  {
    patches := [];
    for i := 0 to |tracked|
      invariant patches == Removals(Stale(tracked[..i], capacity, want))
    {
      StaleStep(tracked, i, capacity, want);
      if tracked[i] in capacity && tracked[i] !in want {
        patches := patches + RemovalPair(tracked[i]);
      }
    }
    assert tracked[..|tracked|] == tracked;
  }

  method NeededResourcePatches(asInt: string -> string, capacity: Items, want: Items)
    returns (patches: seq<Patch>, ghost ts: seq<Target>)
    ensures Lists(patches, ts, ResourceOps(asInt, capacity, want))
  {
    ghost var ops := ResourceOps(asInt, capacity, want);
    forall t ensures t in ops <==> ResourceOp(asInt, capacity, want, t).Some? {
      ResourceOpsAt(asInt, capacity, want, t);
    }
    patches, ts := [], [];
    var todo := want.Keys;
    while todo != {}
      invariant todo <= want.Keys
      invariant forall t :: t in ts <==> t.key !in todo && t in ops
      invariant Listed(patches, ts, ops)
    {
      var resource :| resource in todo;
      todo := todo - {resource};
      patches, ts := AppendResource(asInt, capacity, want, resource, patches, ts);
    }
  }

  /** The body of the second loop: what one wanted resource adds to the patch. */
  method AppendResource(asInt: string -> string, capacity: Items, want: Items, resource: string, before: seq<Patch>,
      ghost ts: seq<Target>)
    returns (patches: seq<Patch>, ghost us: seq<Target>)
    requires resource in want && Listed(before, ts, ResourceOps(asInt, capacity, want))
    requires forall t :: t in ts ==> t.key != resource
    ensures Listed(patches, us, ResourceOps(asInt, capacity, want))
    ensures forall t :: t in us <==> t in ts || (t.key == resource && t in ResourceOps(asInt, capacity, want))
  {
    var value := want[resource];
    ghost var ops := ResourceOps(asInt, capacity, want);
    ghost var c, a := Target(Capacity, resource), Target(Allocatable, resource);
    patches, us := before, ts;
    forall t ensures t in ops <==> ResourceOp(asInt, capacity, want, t).Some? {
      ResourceOpsAt(asInt, capacity, want, t);
    }
    ResourceOpsAt(asInt, capacity, want, c);
    ResourceOpsAt(asInt, capacity, want, a);
    assert forall t :: t in ops && t.key == resource ==> t == c || t == a;
    if resource in capacity {
      if asInt(capacity[resource]) != value {
        ListedExtend(patches, us, ops, c);
        patches, us := patches + [NewJsonPatch("replace", BasePath(Capacity), resource, value)], us + [c];
        ListedExtend(patches, us, ops, a);
        patches, us := patches + [NewJsonPatch("replace", BasePath(Allocatable), resource, value)], us + [a];
      }
    } else {
      // the server adds the "allocatable" entry on its own
      ListedExtend(patches, us, ops, c);
      patches, us := patches + [NewJsonPatch("add", BasePath(Capacity), resource, value)], us + [c];
    }
  }

  /** `createExtendedResourcePatches`: removals of stale resources first, then additions and changes. */
  method CreateResourcePatches(asInt: string -> string, tracked: seq<string>, capacity: Items, want: Items)
    returns (patches: seq<Patch>, ghost needed: seq<Patch>, ghost ts: seq<Target>)
    ensures var removals := Removals(Stale(tracked, capacity, want));
      removals <= patches && Carries(patches[|removals|..], ResourceOps(asInt, capacity, want))
    ensures patches == Removals(Stale(tracked, capacity, want)) + needed
    ensures Lists(needed, ts, ResourceOps(asInt, capacity, want))
  {
    patches := StaleResourcePatches(tracked, capacity, want);
    var more, us := NeededResourcePatches(asInt, capacity, want);
    needed, ts := more, us;
    patches := patches + more;
  }

  ghost predicate Holds(m: Items, names: seq<string>) {
    forall x :: x in names ==> x in m
  }

  /** Each stale resource is still there in both maps, and none is listed twice. */
  ghost predicate RemovalsFit(node: Node, names: seq<string>) {
    Distinct(names) && Holds(node.capacity, names) && Holds(node.allocatable, names)
  }

  function Elems(xs: seq<string>): set<string> {
    set x | x in xs
  }

  function Dropped(node: Node, names: seq<string>): Node {
    node.(capacity := node.capacity - Elems(names), allocatable := node.allocatable - Elems(names))
  }

  lemma {:induction false} ApplyAllConcat(node: Node, ps: seq<Patch>, qs: seq<Patch>)
    ensures ApplyAll(node, ps + qs) ==
      match ApplyAll(node, ps) case None => None case Some(next) => ApplyAll(next, qs)
    decreases |ps|
  {
    if ps == [] {
      assert ps + qs == qs;
    } else {
      assert (ps + qs)[1..] == ps[1..] + qs;
      match ApplyPatch(node, ps[0]) {
        case None =>
        case Some(next) => ApplyAllConcat(next, ps[1..], qs);
      }
    }
  }

  lemma RemovalPairApply(node: Node, name: string)
    requires Patchable(name)
    ensures ApplyAll(node, RemovalPair(name)) ==
      if name in node.capacity && name in node.allocatable then Some(Dropped(node, [name])) else None
  {
    var c, a := Target(Capacity, name), Target(Allocatable, name);
    var p, q := Render(c, Remove), Render(a, Remove);
    assert RemovalPair(name) == [p] + [q];
    RenderResolves(c, Remove);
    RenderResolves(a, Remove);
    ApplyAllConcat(node, [p], [q]);
    assert [p][1..] == [] && [q][1..] == [];
    assert Elems([name]) == {name};
  }

  lemma DistinctCons(names: seq<string>)
    requires names != []
    ensures Distinct(names) <==> names[0] !in names[1..] && Distinct(names[1..])
  {
    var x, rest := names[0], names[1..];
    if Distinct(names) {
      DistinctTail(names);
    }
    if x !in rest && Distinct(rest) {
      forall i, j | 0 <= i < j < |names| ensures names[i] != names[j] {
        assert names[j] == rest[j - 1] && names[j] in rest;
        assert i > 0 ==> names[i] == rest[i - 1];
      }
    }
  }

  lemma HoldsTail(m: Items, names: seq<string>)
    requires names != [] && names[0] in m
    ensures Holds(m, names) && names[0] !in names[1..] <==> Holds(m - {names[0]}, names[1..])
  {
    assert names == [names[0]] + names[1..];
  }

  lemma FitTail(node: Node, names: seq<string>)
    requires names != [] && names[0] in node.capacity && names[0] in node.allocatable
    ensures RemovalsFit(node, names) <==> RemovalsFit(Dropped(node, [names[0]]), names[1..])
    ensures Dropped(Dropped(node, [names[0]]), names[1..]) == Dropped(node, names)
  {
    var x, rest := names[0], names[1..];
    assert names == [x] + rest;
    assert Elems([x]) == {x} && Elems(names) == {x} + Elems(rest);
    DistinctCons(names);
    HoldsTail(node.capacity, names);
    HoldsTail(node.allocatable, names);
    assert node.capacity - {x} - Elems(rest) == node.capacity - Elems(names);
    assert node.allocatable - {x} - Elems(rest) == node.allocatable - Elems(names);
  }

  /** The removals go through exactly when every listed resource is there and listed once. */
  lemma {:induction false} RemovalsApply(node: Node, names: seq<string>)
    requires forall x :: x in names ==> Patchable(x)
    ensures ApplyAll(node, Removals(names)) ==
      if RemovalsFit(node, names) then Some(Dropped(node, names)) else None
    decreases |names|
  {
    if names == [] {
      assert Elems(names) == {};
      assert node.capacity - {} == node.capacity && node.allocatable - {} == node.allocatable;
    } else {
      assert names[0] in names;
      ApplyAllConcat(node, RemovalPair(names[0]), Removals(names[1..]));
      RemovalPairApply(node, names[0]);
      if names[0] in node.capacity && names[0] in node.allocatable {
        FitTail(node, names);
        RemovalsApply(Dropped(node, [names[0]]), names[1..]);
      }
    }
  }
}
