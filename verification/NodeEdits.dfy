/**
 Edits of a node by others, and edits that fall between the reading of a node and the requests of
 `updateNodeObject` (pkg/nfd-master/nfd-master.go): they might as well have come after the update.
 */
module NodeEdits {
  import opened Strings
  import opened JsonPatch
  import opened NodePatches
  import opened NodeUpdate
  import opened NodeRuns

  /** An edit of one string map. */
  datatype Change = Change(put: Items, drop: set<string>) {
    function On(m: Items): Items { m - drop + put }
    function Touched(): set<string> { put.Keys + drop }
  }

  const NO_CHANGE := Change(map[], {})

  /** An edit of a node. */
  datatype Edit = Edit(labels: Change, annotations: Change, capacity: Change, allocatable: Change) {
    function On(node: Node): Node {
      Node(labels.On(node.labels), annotations.On(node.annotations), capacity.On(node.capacity),
        allocatable.On(node.allocatable))
    }

    /** Only valid names are put on the node. */
    ghost predicate Valid() {
      && PatchableKeys(labels.put) && PatchableKeys(annotations.put)
      && PatchableKeys(capacity.put) && PatchableKeys(allocatable.put)
    }
  }

  const NO_EDIT := Edit(NO_CHANGE, NO_CHANGE, NO_CHANGE, NO_CHANGE)

  lemma NoEdit(node: Node)
    ensures NO_EDIT.On(node) == node
  {
    assert forall m: Items :: NO_CHANGE.On(m) == m;
  }

  /** The edit stays off the keys that an update computed from `snap` is about. */
  ghost predicate Clear(cfg: Config, snap: Node, d: Desired, edit: Edit) {
    var a := AnnotationDiff(cfg, snap, d);
    && edit.labels.Touched() !! Elems(TrackedLabels(cfg, snap)) + d.labels.Keys
    && edit.annotations.Touched() !! a.remove + a.want.Keys
    && edit.capacity.Touched() !! Elems(TrackedResources(cfg, snap)) + d.resources.Keys
    && edit.allocatable.Touched() !! Elems(TrackedResources(cfg, snap)) + d.resources.Keys
  }

  lemma OnAt(c: Change, m: Items, k: string)
    ensures k in c.Touched() ==> (k in c.On(m) <==> k in c.put) && (k in c.put ==> c.On(m)[k] == c.put[k])
    ensures k !in c.Touched() ==> SameAt(c.On(m), m, k)
  {
  }

  // ---- The metadata request ----

  lemma DiffCommutes(diff: Diff, c: Change)
    requires c.Touched() !! diff.remove + diff.want.Keys
    ensures diff.Current(c.On(diff.have))
    ensures diff.Result(c.On(diff.have)) == c.On(diff.Result(diff.have))
  {
    forall k ensures SameAt(diff.Result(c.On(diff.have)), c.On(diff.Result(diff.have)), k)
      ensures k in diff.remove + diff.want.Keys ==> SameAt(c.On(diff.have), diff.have, k)
    {
      OnAt(c, diff.have, k);
      OnAt(c, diff.Result(diff.have), k);
      assert k in c.Touched() ==> k !in diff.remove + diff.want.Keys;
    }
    SameMaps(diff.Result(c.On(diff.have)), c.On(diff.Result(diff.have)));
  }

  /** The operations of two diffs, on a node that has the metadata they were computed from. */
  lemma DiffsCommute(l: Diff, a: Diff, edit: Edit, node: Node)
    requires node.labels == l.have && node.annotations == a.have
    requires edit.labels.Touched() !! l.remove + l.want.Keys && edit.annotations.Touched() !! a.remove + a.want.Keys
    ensures var ops := l.Ops(Labels) + a.Ops(Annotations);
      && Applicable(node, ops) && Applicable(edit.On(node), ops)
      && Effect(edit.On(node), ops) == edit.On(Effect(node, ops))
  {
    DiffCommutes(l, edit.labels);
    DiffCommutes(a, edit.annotations);
    MetaEffectOf(l, a, node);
    MetaEffectOf(l, a, edit.On(node));
  }

  lemma MetaCommutes(cfg: Config, snap: Node, d: Desired, edit: Edit, mid: Node)
    requires Clear(cfg, snap, d, edit) && mid.labels == snap.labels && mid.annotations == snap.annotations
    ensures MetaFits(cfg, snap, d, mid) && MetaFits(cfg, snap, d, edit.On(mid))
    ensures Effect(edit.On(mid), MetaOps(cfg, snap, d)) == edit.On(Effect(mid, MetaOps(cfg, snap, d)))
  {
    DiffsCommute(LabelDiff(cfg, snap, d), AnnotationDiff(cfg, snap, d), edit, mid);
  }

  // ---- The status request ----

  /** Dropping some keys and carrying out operations commutes with an edit of other keys. */
  lemma EffectCommutes(m: Items, stale: set<string>, c: Container, ops: Ops, change: Change)
    requires change.Touched() !! stale && forall k :: k in change.Touched() ==> Target(c, k) !in ops
    ensures EffectOn(change.On(m) - stale, c, ops) == change.On(EffectOn(m - stale, c, ops))
  {
    forall k ensures SameAt(EffectOn(change.On(m) - stale, c, ops), change.On(EffectOn(m - stale, c, ops)), k) {
      EffectOnAt(change.On(m) - stale, c, ops, k);
      EffectOnAt(m - stale, c, ops, k);
      OnAt(change, m, k);
      OnAt(change, EffectOn(m - stale, c, ops), k);
      assert k in change.Touched() ==> k !in stale;
    }
    SameMaps(EffectOn(change.On(m) - stale, c, ops), change.On(EffectOn(m - stale, c, ops)));
  }

  function Filled(had: Items, capacity: Items, allocatable: Items): Items {
    Settled(had, Node(map[], map[], capacity, allocatable)).allocatable
  }

  /** So does filling in the allocatable amounts of added resources. */
  lemma FilledCommutes(had: Items, capacity: Items, allocatable: Items, c: Change, q: Change)
    requires forall k :: k in c.Touched() + q.Touched() ==> (k in capacity <==> k in had)
    ensures Filled(c.On(had), c.On(capacity), q.On(allocatable)) == q.On(Filled(had, capacity, allocatable))
  {
    var a, b := Filled(c.On(had), c.On(capacity), q.On(allocatable)), q.On(Filled(had, capacity, allocatable));
    forall k ensures SameAt(a, b, k) {
      OnAt(c, had, k);
      OnAt(c, capacity, k);
      OnAt(q, allocatable, k);
      OnAt(q, Filled(had, capacity, allocatable), k);
      assert k in c.Touched() + q.Touched() ==> (k in capacity <==> k in had);
    }
    SameMaps(a, b);
  }

  lemma NeededKeys(cfg: Config, snap: Node, d: Desired)
    ensures forall t :: t in NeededResources(cfg, snap, d) ==> t.key in d.resources
    ensures forall k :: k in StaleResources(cfg, snap, d) ==> k in TrackedResources(cfg, snap)
  {
    forall t | t in NeededResources(cfg, snap, d) ensures t.key in d.resources {
      ResourceOpsAt(cfg.asInt, snap.capacity, d.resources, t);
    }
  }

  /** The resources of the update are as they were read. */
  ghost predicate SameResources(a: Node, b: Node, keys: set<string>) {
    forall k :: k in keys ==> SameAt(b.capacity, a.capacity, k) && SameAt(b.allocatable, a.allocatable, k)
  }

  lemma ClearSame(cfg: Config, snap: Node, d: Desired, edit: Edit)
    requires Clear(cfg, snap, d, edit)
    ensures SameResources(snap, edit.On(snap), Elems(TrackedResources(cfg, snap)) + d.resources.Keys)
  {
    forall k | k in Elems(TrackedResources(cfg, snap)) + d.resources.Keys
      ensures SameAt(edit.capacity.On(snap.capacity), snap.capacity, k)
      ensures SameAt(edit.allocatable.On(snap.allocatable), snap.allocatable, k)
    {
      OnAt(edit.capacity, snap.capacity, k);
      OnAt(edit.allocatable, snap.allocatable, k);
      assert k !in edit.capacity.Touched() && k !in edit.allocatable.Touched();
    }
  }

  lemma StatusFitsEdited(cfg: Config, snap: Node, d: Desired, edit: Edit)
    requires Clear(cfg, snap, d, edit)
    ensures StatusFits(cfg, snap, d, edit.On(snap)) <==> StatusFits(cfg, snap, d, snap)
  {
    NeededKeys(cfg, snap, d);
    ResourcesElsewhere(cfg.asInt, snap.capacity, d.resources);
    ClearSame(cfg, snap, d, edit);
    var keys := Elems(TrackedResources(cfg, snap)) + d.resources.Keys;
    FitsEdited(snap, edit.On(snap), StaleResources(cfg, snap, d), NeededResources(cfg, snap, d), keys);
  }

  lemma FitsEdited(a: Node, b: Node, stale: seq<string>, ops: Ops, keys: set<string>)
    requires SameResources(a, b, keys)
    requires forall k :: k in stale ==> k in keys
    requires forall t :: t in ops ==> t.key in keys
    requires forall t :: t in ops ==> t.container == Capacity || t.container == Allocatable
    ensures RemovalsFit(b, stale) && Applicable(Dropped(b, stale), ops) <==>
      RemovalsFit(a, stale) && Applicable(Dropped(a, stale), ops)
  {
    forall t | t in ops ensures AppliesAt(Dropped(b, stale), t, ops[t]) <==> AppliesAt(Dropped(a, stale), t, ops[t]) {
      assert SameAt(b.capacity, a.capacity, t.key) && SameAt(b.allocatable, a.allocatable, t.key);
    }
    assert forall k :: k in stale ==> SameAt(b.capacity, a.capacity, k) && SameAt(b.allocatable, a.allocatable, k);
  }

  lemma CapacityOff(cfg: Config, snap: Node, d: Desired, k: string)
    requires k !in Elems(TrackedResources(cfg, snap)) + d.resources.Keys
    ensures SameAt(StatusDone(cfg, snap, d, snap).capacity, snap.capacity, k)
  {
    StatusCapacity(cfg, snap, d, k);
  }

  lemma StatusMapsCommute(cfg: Config, snap: Node, d: Desired, edit: Edit)
    requires Clear(cfg, snap, d, edit)
    ensures var stale, ops := Elems(StaleResources(cfg, snap, d)), NeededResources(cfg, snap, d);
      && EffectOn(edit.capacity.On(snap.capacity) - stale, Capacity, ops) ==
        edit.capacity.On(EffectOn(snap.capacity - stale, Capacity, ops))
      && EffectOn(edit.allocatable.On(snap.allocatable) - stale, Allocatable, ops) ==
        edit.allocatable.On(EffectOn(snap.allocatable - stale, Allocatable, ops))
  {
    var stale, ops := Elems(StaleResources(cfg, snap, d)), NeededResources(cfg, snap, d);
    NeededKeys(cfg, snap, d);
    assert stale <= Elems(TrackedResources(cfg, snap));
    EffectCommutes(snap.capacity, stale, Capacity, ops, edit.capacity);
    EffectCommutes(snap.allocatable, stale, Allocatable, ops, edit.allocatable);
  }

  /** The status after a request that has something to change. */
  lemma StatusFields(cfg: Config, snap: Node, d: Desired, cur: Node)
    requires !StatusIdle(cfg, snap, d)
    ensures var stale, ops := Elems(StaleResources(cfg, snap, d)), NeededResources(cfg, snap, d);
      var capacity := EffectOn(cur.capacity - stale, Capacity, ops);
      var after := StatusDone(cfg, snap, d, cur);
      && after.capacity == capacity
      && after.allocatable == Filled(cur.capacity, capacity, EffectOn(cur.allocatable - stale, Allocatable, ops))
  {
  }

  lemma AmountsCommute(cfg: Config, snap: Node, d: Desired, edit: Edit)
    requires Clear(cfg, snap, d, edit) && !StatusIdle(cfg, snap, d)
    ensures var after, mid := StatusDone(cfg, snap, d, edit.On(snap)), StatusDone(cfg, snap, d, snap);
      after.capacity == edit.capacity.On(mid.capacity) && after.allocatable == edit.allocatable.On(mid.allocatable)
  {
    StatusMapsCommute(cfg, snap, d, edit);
    StatusFields(cfg, snap, d, snap);
    StatusFields(cfg, snap, d, edit.On(snap));
    var stale, ops := Elems(StaleResources(cfg, snap, d)), NeededResources(cfg, snap, d);
    var mid := StatusDone(cfg, snap, d, snap);
    forall k | k in edit.capacity.Touched() + edit.allocatable.Touched()
      ensures k in mid.capacity <==> k in snap.capacity
    {
      CapacityOff(cfg, snap, d, k);
    }
    FilledCommutes(snap.capacity, mid.capacity, EffectOn(snap.allocatable - stale, Allocatable, ops), edit.capacity,
      edit.allocatable);
  }

  /** The status request, computed from the reading, commutes with the edit. */
  lemma StatusCommutes(cfg: Config, snap: Node, d: Desired, edit: Edit)
    requires Clear(cfg, snap, d, edit)
    ensures StatusDone(cfg, snap, d, edit.On(snap)) == edit.On(StatusDone(cfg, snap, d, snap))
  {
    StatusKeepsMeta(cfg, snap, d, snap);
    StatusKeepsMeta(cfg, snap, d, edit.On(snap));
    if !StatusIdle(cfg, snap, d) {
      AmountsCommute(cfg, snap, d, edit);
    }
  }

  // ---- The whole update ----

  /** The three ends of an update. */
  function Course(refused: bool, halted: bool, cur: Node, next: Node, done: Node): Outcome {
    if refused then Outcome(false, cur) else if halted then Outcome(false, next) else Outcome(true, done)
  }

  ghost predicate Refused(cfg: Config, snap: Node, d: Desired, cur: Node, statusOutage: bool) {
    !StatusIdle(cfg, snap, d) && (statusOutage || !StatusFits(cfg, snap, d, cur))
  }

  ghost predicate Halted(cfg: Config, snap: Node, d: Desired, next: Node, metaOutage: bool) {
    MetaOps(cfg, snap, d) != map[] && (metaOutage || !MetaFits(cfg, snap, d, next))
  }

  lemma CourseOf(cfg: Config, snap: Node, d: Desired, cur: Node, statusOutage: bool, metaOutage: bool)
    ensures var next := StatusDone(cfg, snap, d, cur);
      UpdateOutcome(cfg, snap, d, cur, statusOutage, metaOutage) ==
        Course(Refused(cfg, snap, d, cur, statusOutage), Halted(cfg, snap, d, next, metaOutage), cur, next,
          Effect(next, MetaOps(cfg, snap, d)))
  {
  }

  lemma CourseCommutes(refused: bool, halted: bool, cur: Node, next: Node, done: Node, edit: Edit)
    ensures var o := Course(refused, halted, cur, next, done);
      Course(refused, halted, edit.On(cur), edit.On(next), edit.On(done)) == Outcome(o.ok, edit.On(o.node))
  {
  }

  lemma HaltedEdited(cfg: Config, snap: Node, d: Desired, edit: Edit, mid: Node, metaOutage: bool)
    requires Clear(cfg, snap, d, edit) && mid.labels == snap.labels && mid.annotations == snap.annotations
    ensures Halted(cfg, snap, d, edit.On(mid), metaOutage) == Halted(cfg, snap, d, mid, metaOutage)
  {
    MetaCommutes(cfg, snap, d, edit, mid);
  }

  /** An update that finds the node edited since it was read ends as if the edit had come after it. */
  lemma UpdateCommutes(cfg: Config, snap: Node, d: Desired, edit: Edit, statusOutage: bool, metaOutage: bool)
    requires Clear(cfg, snap, d, edit)
    ensures var o := UpdateOutcome(cfg, snap, d, snap, statusOutage, metaOutage);
      UpdateOutcome(cfg, snap, d, edit.On(snap), statusOutage, metaOutage) == Outcome(o.ok, edit.On(o.node))
  {
    var mid, ops := StatusDone(cfg, snap, d, snap), MetaOps(cfg, snap, d);
    CourseOf(cfg, snap, d, snap, statusOutage, metaOutage);
    CourseOf(cfg, snap, d, edit.On(snap), statusOutage, metaOutage);
    StatusFitsEdited(cfg, snap, d, edit);
    StatusCommutes(cfg, snap, d, edit);
    StatusKeepsMeta(cfg, snap, d, snap);
    MetaCommutes(cfg, snap, d, edit, mid);
    HaltedEdited(cfg, snap, d, edit, mid, metaOutage);
    CourseCommutes(Refused(cfg, snap, d, snap, statusOutage), Halted(cfg, snap, d, mid, metaOutage), snap, mid,
      Effect(mid, ops), edit);
  }
}
