/**
 What one update of pkg/nfd-master/nfd-master.go does, in closed form: ownership read back from the node
 itself, and transparency towards everything the master does not own.
 */
module NodeRuns {
  import opened Strings
  import opened Sorting
  import opened JsonPatch
  import opened Tracking
  import opened NodePatches
  import opened NodeUpdate

  // ---- One update ----

  /** The node after an update that reads the stored node and meets no outage; None if it fails. */
  ghost function Updated(cfg: Config, node: Node, d: Desired): Option<Node> {
    var o := UpdateOutcome(cfg, node, d, node, false, false);
    if o.ok then Some(o.node) else None
  }

  lemma MetaEffect(cfg: Config, snap: Node, d: Desired, cur: Node)
    requires LabelDiff(cfg, snap, d).Current(cur.labels)
    requires AnnotationDiff(cfg, snap, d).Current(cur.annotations)
    ensures MetaFits(cfg, snap, d, cur)
    ensures Effect(cur, MetaOps(cfg, snap, d)) == cur.(
      labels := LabelDiff(cfg, snap, d).Result(cur.labels),
      annotations := AnnotationDiff(cfg, snap, d).Result(cur.annotations))
  {
    MetaEffectOf(LabelDiff(cfg, snap, d), AnnotationDiff(cfg, snap, d), cur);
  }

  lemma LabelsEffect(l: Diff, a: Diff, labels: Items)
    requires l.Current(labels)
    ensures EffectOn(labels, Labels, l.Ops(Labels) + a.Ops(Annotations)) == l.Result(labels)
  {
    DiffElsewhere(a, Annotations);
    EffectOnSame(labels, Labels, l.Ops(Labels) + a.Ops(Annotations), l.Ops(Labels));
    DiffEffect(l, Labels, labels);
  }

  lemma AnnotationsEffect(l: Diff, a: Diff, annotations: Items)
    requires a.Current(annotations)
    ensures EffectOn(annotations, Annotations, l.Ops(Labels) + a.Ops(Annotations)) == a.Result(annotations)
  {
    DiffElsewhere(l, Labels);
    EffectOnSame(annotations, Annotations, l.Ops(Labels) + a.Ops(Annotations), a.Ops(Annotations));
    DiffEffect(a, Annotations, annotations);
  }

  lemma ElsewhereNone(l: Diff, a: Diff, m: Items, c: Container)
    requires c != Labels && c != Annotations
    ensures EffectOn(m, c, l.Ops(Labels) + a.Ops(Annotations)) == m
  {
    DiffElsewhere(l, Labels);
    DiffElsewhere(a, Annotations);
    EffectOnNone(m, c, l.Ops(Labels) + a.Ops(Annotations));
  }

  lemma ApplicableBoth(node: Node, a: Ops, b: Ops)
    requires Applicable(node, a) && Applicable(node, b)
    ensures Applicable(node, a + b)
  {
  }

  lemma MetaEffectOf(l: Diff, a: Diff, cur: Node)
    requires l.Current(cur.labels) && a.Current(cur.annotations)
    ensures Applicable(cur, l.Ops(Labels) + a.Ops(Annotations))
    ensures Effect(cur, l.Ops(Labels) + a.Ops(Annotations)) ==
      cur.(labels := l.Result(cur.labels), annotations := a.Result(cur.annotations))
  {
    DiffApplicable(l, Labels, cur);
    DiffApplicable(a, Annotations, cur);
    ApplicableBoth(cur, l.Ops(Labels), a.Ops(Annotations));
    LabelsEffect(l, a, cur.labels);
    AnnotationsEffect(l, a, cur.annotations);
    ElsewhereNone(l, a, cur.capacity, Capacity);
    ElsewhereNone(l, a, cur.allocatable, Allocatable);
  }

  lemma ResourcesElsewhere(asInt: string -> string, capacity: Items, want: Items)
    ensures forall t :: t in ResourceOps(asInt, capacity, want) ==>
      t.container == Capacity || t.container == Allocatable
  {
    forall t | t in ResourceOps(asInt, capacity, want) ensures t.container == Capacity || t.container == Allocatable {
      ResourceOpsAt(asInt, capacity, want, t);
    }
  }

  /** The status patch leaves the metadata alone. */
  lemma StatusKeepsMeta(cfg: Config, snap: Node, d: Desired, cur: Node)
    ensures StatusDone(cfg, snap, d, cur).labels == cur.labels
    ensures StatusDone(cfg, snap, d, cur).annotations == cur.annotations
  {
    ResourcesElsewhere(cfg.asInt, snap.capacity, d.resources);
    EffectOnNone(cur.labels, Labels, NeededResources(cfg, snap, d));
    EffectOnNone(cur.annotations, Annotations, NeededResources(cfg, snap, d));
  }

  /** Without an outage the metadata patch goes through, so only the status patch can fail an update. */
  lemma UpdateSteps(cfg: Config, node: Node, d: Desired)
    ensures Updated(cfg, node, d).Some? <==> StatusIdle(cfg, node, d) || StatusFits(cfg, node, d, node)
    ensures Updated(cfg, node, d).Some? ==> Updated(cfg, node, d).value == StatusDone(cfg, node, d, node).(
      labels := LabelDiff(cfg, node, d).Result(node.labels),
      annotations := AnnotationDiff(cfg, node, d).Result(node.annotations))
  {
    StatusKeepsMeta(cfg, node, d, node);
    MetaEffect(cfg, node, d, StatusDone(cfg, node, d, node));
  }

  lemma OverwriteResult(diff: Diff, cur: Items)
    requires diff.overwrite
    ensures diff.Result(cur) == (cur - diff.remove) + diff.want
  {
  }

  // ---- Ownership is read back ----

  lemma AssembledAt(cfg: Config, d: Desired, lv: string, rv: string, av: string, rest: Items)
    requires ValidConfig(cfg) && d.annotations.Keys !! cfg.Reserved() && rest.Keys !! cfg.Reserved()
    ensures var m := rest + Assembled(cfg, d, lv, rv, av);
      && Value(m, cfg.labelsKey) == (if d.labels == map[] then "" else lv)
      && Value(m, cfg.resourcesKey) == (if d.resources == map[] then "" else rv)
      && Value(m, cfg.annotationsKey) == (if d.annotations == map[] then "" else av)
  {
    assert cfg.labelsKey in cfg.Reserved() && cfg.resourcesKey in cfg.Reserved()
      && cfg.annotationsKey in cfg.Reserved();
  }

  /** The tracking value of an empty map reads back as nothing, present or not. */
  lemma ReadBack(items: Items, ns: string, value: string)
    requires Namespace(ns) && AllTrackable(items.Keys, ns)
    requires value == if items == map[] then "" else TrackingValue(items.Keys, ns)
    ensures multiset(NsNames(value, ns)) == multiset(items.Keys)
  {
    if items != map[] {
      TrackingRoundTrip(items.Keys, ns);
    } else {
      assert items.Keys == {};
    }
  }

  ghost predicate Tracks(cfg: Config, node: Node, d: Desired) {
    && multiset(TrackedLabels(cfg, node)) == multiset(d.labels.Keys)
    && multiset(TrackedResources(cfg, node)) == multiset(d.resources.Keys)
    && multiset(TrackedAnnotations(cfg, node)) == multiset(d.annotations.Keys)
  }

  lemma TracksLabels(cfg: Config, d: Desired, node: Node, rest: Items)
    requires ValidConfig(cfg) && ValidDesired(cfg, d) && rest.Keys !! cfg.Reserved()
    requires node.annotations == rest + WantedAnnotations(cfg, d)
    ensures multiset(TrackedLabels(cfg, node)) == multiset(d.labels.Keys)
  {
    AssembledAt(cfg, d, TrackingValue(d.labels.Keys, cfg.ns), TrackingValue(d.resources.Keys, cfg.ns),
      TrackingValue(d.annotations.Keys, cfg.ns), rest);
    ReadBack(d.labels, cfg.ns, Value(node.annotations, cfg.labelsKey));
  }

  lemma TracksResources(cfg: Config, d: Desired, node: Node, rest: Items)
    requires ValidConfig(cfg) && ValidDesired(cfg, d) && rest.Keys !! cfg.Reserved()
    requires node.annotations == rest + WantedAnnotations(cfg, d)
    ensures multiset(TrackedResources(cfg, node)) == multiset(d.resources.Keys)
  {
    AssembledAt(cfg, d, TrackingValue(d.labels.Keys, cfg.ns), TrackingValue(d.resources.Keys, cfg.ns),
      TrackingValue(d.annotations.Keys, cfg.ns), rest);
    ReadBack(d.resources, cfg.ns, Value(node.annotations, cfg.resourcesKey));
  }

  lemma TracksAnnotations(cfg: Config, d: Desired, node: Node, rest: Items)
    requires ValidConfig(cfg) && ValidDesired(cfg, d) && rest.Keys !! cfg.Reserved()
    requires node.annotations == rest + WantedAnnotations(cfg, d)
    ensures multiset(TrackedAnnotations(cfg, node)) == multiset(d.annotations.Keys)
  {
    AssembledAt(cfg, d, TrackingValue(d.labels.Keys, cfg.ns), TrackingValue(d.resources.Keys, cfg.ns),
      TrackingValue(d.annotations.Keys, cfg.ns), rest);
    ReadBack(d.annotations, cfg.ns, Value(node.annotations, cfg.annotationsKey));
  }

  /** A node that carries the wanted annotations tracks exactly the desired keys. */
  lemma TracksDesired(cfg: Config, d: Desired, node: Node, rest: Items)
    requires ValidConfig(cfg) && ValidDesired(cfg, d) && rest.Keys !! cfg.Reserved()
    requires node.annotations == rest + WantedAnnotations(cfg, d)
    ensures Tracks(cfg, node, d)
  {
    TracksLabels(cfg, d, node, rest);
    TracksResources(cfg, d, node, rest);
    TracksAnnotations(cfg, d, node, rest);
  }

  lemma ElemsOf(xs: seq<string>, s: set<string>)
    requires multiset(xs) == multiset(s)
    ensures Elems(xs) == s && Distinct(xs)
  {
    forall x ensures x in Elems(xs) <==> x in s {
      assert x in xs <==> x in multiset(xs);
    }
    forall i, j | 0 <= i < j < |xs| ensures xs[i] != xs[j] {
      RemoveAt(xs, j);
      assert Without(xs, j)[i] == xs[i];
      assert xs[i] in multiset(Without(xs, j));
      assert multiset(s)[xs[j]] == 1;
    }
  }

  // ---- Closed form of an update ----

  /** A wanted resource is on the node with its value, as text or as the integer it stands for. */
  ghost predicate ResourceMet(asInt: string -> string, capacity: Items, k: string, v: string) {
    k in capacity && (capacity[k] == v || asInt(capacity[k]) == v)
  }

  /** The capacity stands for the wanted amount already. */
  predicate Unaltered(asInt: string -> string, capacity: Items, k: string, v: string) {
    k in capacity && asInt(capacity[k]) == v
  }

  lemma CapacityAfter(asInt: string -> string, capacity: Items, want: Items, stale: seq<string>, k: string)
    requires forall x :: x in stale ==> x !in want
    ensures var after := EffectOn(capacity - Elems(stale), Capacity, ResourceOps(asInt, capacity, want));
      if k in want then
        k in after && after[k] == if Unaltered(asInt, capacity, k, want[k]) then capacity[k] else want[k]
      else (k in after <==> k in capacity && k !in stale) && (k in after ==> after[k] == capacity[k])
  {
    var ops := ResourceOps(asInt, capacity, want);
    ResourceOpsAt(asInt, capacity, want, Target(Capacity, k));
    EffectOnAt(capacity - Elems(stale), Capacity, ops, k);
  }

  lemma IdleCapacity(cfg: Config, node: Node, d: Desired)
    requires StatusIdle(cfg, node, d)
    ensures EffectOn(node.capacity - Elems(StaleResources(cfg, node, d)), Capacity, NeededResources(cfg, node, d)) ==
      node.capacity
  {
    assert Elems(StaleResources(cfg, node, d)) == {};
    assert node.capacity - {} == node.capacity;
    EffectOnNone(node.capacity, Capacity, NeededResources(cfg, node, d));
  }

  /** The capacity after the status patch, key by key. */
  lemma StatusCapacity(cfg: Config, node: Node, d: Desired, k: string)
    ensures var after := StatusDone(cfg, node, d, node).capacity;
      if k in d.resources then
        var same := Unaltered(cfg.asInt, node.capacity, k, d.resources[k]);
        k in after && after[k] == if same then node.capacity[k] else d.resources[k]
      else
        && (k in after <==> k in node.capacity && k !in TrackedResources(cfg, node))
        && (k in after ==> after[k] == node.capacity[k])
  {
    CapacityAfter(cfg.asInt, node.capacity, d.resources, StaleResources(cfg, node, d), k);
    if StatusIdle(cfg, node, d) {
      IdleCapacity(cfg, node, d);
    }
  }

  /** The allocatable amounts after the status patch, given that after it the capacity is `capacity`. */
  lemma AllocatableAfter(asInt: string -> string, node: Node, want: Items, stale: seq<string>, after: Node, k: string)
    requires forall x :: x in stale ==> x in node.capacity && x !in want
    requires after == Settled(node.capacity, Effect(Dropped(node, stale), ResourceOps(asInt, node.capacity, want)))
    ensures k in want && !Unaltered(asInt, node.capacity, k, want[k]) ==>
      k in after.allocatable &&
      after.allocatable[k] == if k !in node.capacity && k in node.allocatable then node.allocatable[k] else want[k]
    ensures k in want && Unaltered(asInt, node.capacity, k, want[k]) ==> SameAt(after.allocatable, node.allocatable, k)
    ensures k !in want && k !in stale ==> SameAt(after.allocatable, node.allocatable, k)
    ensures k in stale ==> k !in after.allocatable
  {
    var ops := ResourceOps(asInt, node.capacity, want);
    ResourceOpsAt(asInt, node.capacity, want, Target(Capacity, k));
    ResourceOpsAt(asInt, node.capacity, want, Target(Allocatable, k));
    EffectOnAt(node.capacity - Elems(stale), Capacity, ops, k);
    EffectOnAt(node.allocatable - Elems(stale), Allocatable, ops, k);
  }

  /**
   The allocatable amounts after the status patch, key by key: set where the capacity is set, except
   that an amount without a capacity is kept; dropped where the capacity is dropped.
   */
  lemma StatusAllocatable(cfg: Config, node: Node, d: Desired, k: string)
    ensures var after := StatusDone(cfg, node, d, node).allocatable;
      if k in d.resources && !Unaltered(cfg.asInt, node.capacity, k, d.resources[k]) then
        var kept := k !in node.capacity && k in node.allocatable;
        k in after && after[k] == if kept then node.allocatable[k] else d.resources[k]
      else if k !in d.resources && k in TrackedResources(cfg, node) && k in node.capacity then k !in after
      else SameAt(after, node.allocatable, k)
  {
    if StatusIdle(cfg, node, d) {
      ResourceOpsAt(cfg.asInt, node.capacity, d.resources, Target(Capacity, k));
    } else {
      AllocatableAfter(cfg.asInt, node, d.resources, StaleResources(cfg, node, d), StatusDone(cfg, node, d, node), k);
    }
  }

  ghost function OwnedAnnotations(cfg: Config, node: Node): set<string> {
    Elems(TrackedAnnotations(cfg, node)) + cfg.Reserved()
  }

  /** `m` without the keys of `s`; map subtraction that reads well in specifications. */
  function Minus(m: Items, s: set<string>): Items {
    m - s
  }

  /** The metadata an update leaves: everything but the owned keys as before, and what is wanted. */
  lemma UpdatedMeta(cfg: Config, node: Node, d: Desired)
    requires ValidConfig(cfg) && ValidDesired(cfg, d) && cfg.allowOverwrite && Updated(cfg, node, d).Some?
    ensures var after := Updated(cfg, node, d).value;
      && after.labels == Minus(node.labels, Elems(TrackedLabels(cfg, node))) + d.labels
      && after.annotations == Minus(node.annotations, OwnedAnnotations(cfg, node)) + WantedAnnotations(cfg, d)
  {
    UpdateSteps(cfg, node, d);
    OverwriteResult(LabelDiff(cfg, node, d), node.labels);
    OverwriteResult(AnnotationDiff(cfg, node, d), node.annotations);
  }

  lemma UpdatedTracks(cfg: Config, node: Node, d: Desired)
    requires ValidConfig(cfg) && ValidDesired(cfg, d) && cfg.allowOverwrite && Updated(cfg, node, d).Some?
    ensures Tracks(cfg, Updated(cfg, node, d).value, d)
  {
    UpdatedMeta(cfg, node, d);
    TracksDesired(cfg, d, Updated(cfg, node, d).value, Minus(node.annotations, OwnedAnnotations(cfg, node)));
  }

  // ---- Item by item ----

  /** Without overwriting, an item that is on the node and tracked keeps the value it has. */
  predicate Frozen(cfg: Config, have: Items, tracked: seq<string>, k: string) {
    !cfg.allowOverwrite && k in have && k in tracked
  }

  /**
   After an update a desired item has its desired value, frozen ones apart; of the others those that were
   tracked are gone and the rest is as before.
   */
  ghost predicate ShownAt(cfg: Config, have: Items, tracked: seq<string>, want: Items, after: Items, k: string) {
    if k in want then k in after && after[k] == if Frozen(cfg, have, tracked, k) then have[k] else want[k]
    else if k in tracked then k !in after
    else SameAt(after, have, k)
  }

  lemma ResultAt(diff: Diff, k: string)
    ensures var after := diff.Result(diff.have);
      if k in diff.want then
        var frozen := !diff.overwrite && k in diff.have && k in diff.remove;
        k in after && after[k] == if frozen then diff.have[k] else diff.want[k]
      else if k in diff.remove then k !in after
      else SameAt(after, diff.have, k)
  {
  }

  lemma UpdatedLabelsAt(cfg: Config, node: Node, d: Desired, k: string)
    requires Updated(cfg, node, d).Some?
    ensures ShownAt(cfg, node.labels, TrackedLabels(cfg, node), d.labels, Updated(cfg, node, d).value.labels, k)
  {
    UpdateSteps(cfg, node, d);
    ResultAt(LabelDiff(cfg, node, d), k);
  }

  lemma UpdatedAnnotationsAt(cfg: Config, node: Node, d: Desired, k: string)
    requires d.annotations.Keys !! cfg.Reserved() && Updated(cfg, node, d).Some?
    ensures var after := Updated(cfg, node, d).value.annotations;
      if k !in cfg.Reserved() then
        ShownAt(cfg, node.annotations, TrackedAnnotations(cfg, node), d.annotations, after, k)
      else k !in {cfg.labelsKey, cfg.resourcesKey, cfg.annotationsKey} ==> k !in after
  {
    UpdateSteps(cfg, node, d);
    ResultAt(AnnotationDiff(cfg, node, d), k);
    WantedValues(cfg, d, k);
  }

  /**
   The metadata after a successful update, item by item and for both settings of overwriting: labels and
   annotations have their desired values unless frozen, those no longer desired are gone, old version
   annotations too, and everything else is as before.
   */
  lemma UpdatedValues(cfg: Config, node: Node, d: Desired, k: string)
    requires ValidConfig(cfg) && ValidDesired(cfg, d) && Updated(cfg, node, d).Some?
    ensures var after := Updated(cfg, node, d).value;
      && ShownAt(cfg, node.labels, TrackedLabels(cfg, node), d.labels, after.labels, k)
      && (k !in cfg.Reserved() ==>
        ShownAt(cfg, node.annotations, TrackedAnnotations(cfg, node), d.annotations, after.annotations, k))
      && (k in {cfg.masterVersionKey, cfg.workerVersionKey} - {cfg.labelsKey, cfg.resourcesKey, cfg.annotationsKey} ==>
        k !in after.annotations)
      && (cfg.allowOverwrite && k in d.annotations ==>
        k in after.annotations && after.annotations[k] == d.annotations[k])
  {
    UpdatedLabelsAt(cfg, node, d, k);
    UpdatedAnnotationsAt(cfg, node, d, k);
  }
}
