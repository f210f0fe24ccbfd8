/**
 One reconciliation of a node: `updateNodeObject` of pkg/nfd-master/nfd-master.go, against an API
 server that applies JSON patches.
 */
module NodeUpdate {
  import opened Strings
  import opened Sorting
  import opened JsonPatch
  import opened Tracking
  import opened NodePatches

  /**
   What an instance of the master goes by on a node. `MasterConfig` in the module Instance gives the
   actual strings; the proofs need only what `ValidConfig` says of them.
   `asInt` prints the integer a stored quantity stands for, as `AsInt64` and `FormatInt` do.
   */
  datatype Config = Config(
    ns: string,
    prefix: string,
    labelsKey: string,
    resourcesKey: string,
    annotationsKey: string,
    masterVersionKey: string,
    workerVersionKey: string,
    allowOverwrite: bool,
    asInt: string -> string)
  {
    /** Annotations that every update rewrites or cleans up. */
    function Reserved(): set<string> {
      {labelsKey, resourcesKey, annotationsKey, masterVersionKey, workerVersionKey}
    }
  }

  /** What the rules and the discovered features ask for on one node. */
  datatype Desired = Desired(
    labels: map<string, string>,
    annotations: map<string, string>,
    resources: map<string, string>)

  // ---- The API server ----

  /** The server fills in the allocatable amount of a resource that was added to the capacity. */
  function Settled(had: Items, node: Node): Node {
    var added := map k | k in node.capacity && k !in had && k !in node.allocatable :: node.capacity[k];
    node.(allocatable := added + node.allocatable)
  }

  /** The stored node object; an outage makes a request fail without effect. */
  class ApiServer {
    var node: Node

    /** `patchNode`. */
    method Patch(patches: seq<Patch>, outage: bool) returns (ok: bool)
      modifies this
      ensures ok == (patches == [] || (!outage && ApplyAll(old(node), patches).Some?))
      ensures node == if ok then ApplyAll(old(node), patches).value else old(node)
    {
      if patches == [] { return true; }
      var result := ApplyAll(node, patches);
      ok := !outage && result.Some?;
      if ok { node := result.value; }
    }

    /** `patchNodeStatus`. */
    method PatchStatus(patches: seq<Patch>, outage: bool) returns (ok: bool)
      modifies this
      ensures ok == (patches == [] || (!outage && ApplyAll(old(node), patches).Some?))
      ensures node ==
        if !ok || patches == [] then old(node) else Settled(old(node).capacity, ApplyAll(old(node), patches).value)
    {
      var had := node.capacity;
      ok := Patch(patches, outage);
      if ok && patches != [] { node := Settled(had, node); }
    }
  }

  // ---- Ownership ----

  function Value(m: Items, k: string): string {
    if k in m then m[k] else ""
  }

  function TrackedLabels(cfg: Config, node: Node): seq<string> {
    NsNames(Value(node.annotations, cfg.labelsKey), cfg.ns)
  }

  function TrackedResources(cfg: Config, node: Node): seq<string> {
    NsNames(Value(node.annotations, cfg.resourcesKey), cfg.ns)
  }

  function TrackedAnnotations(cfg: Config, node: Node): seq<string> {
    NsNames(Value(node.annotations, cfg.annotationsKey), cfg.ns)
  }

  function Entry(items: Items, key: string, value: string): Items {
    if items == map[] then map[] else map[key := value]
  }

  /** One tracking entry per non-empty map, then the feature annotations. */
  function Assembled(cfg: Config, d: Desired, labels: string, resources: string, annotations: string): Items {
    Entry(d.labels, cfg.labelsKey, labels) + Entry(d.resources, cfg.resourcesKey, resources) +
    Entry(d.annotations, cfg.annotationsKey, annotations) + d.annotations
  }

  /** The annotations an update wants. */
  ghost function WantedAnnotations(cfg: Config, d: Desired): Items {
    Assembled(cfg, d,
      TrackingValue(d.labels.Keys, cfg.ns), TrackingValue(d.resources.Keys, cfg.ns),
      TrackingValue(d.annotations.Keys, cfg.ns))
  }

  ghost function LabelDiff(cfg: Config, node: Node, d: Desired): Diff {
    Diff(Elems(TrackedLabels(cfg, node)), node.labels, d.labels, cfg.allowOverwrite)
  }

  ghost function AnnotationDiff(cfg: Config, node: Node, d: Desired): Diff {
    var owned := Elems(TrackedAnnotations(cfg, node)) + cfg.Reserved();
    Diff(owned, node.annotations, WantedAnnotations(cfg, d), cfg.allowOverwrite)
  }

  ghost function MetaOps(cfg: Config, node: Node, d: Desired): Ops {
    LabelDiff(cfg, node, d).Ops(Labels) + AnnotationDiff(cfg, node, d).Ops(Annotations)
  }

  // ---- What the callers guarantee ----

  ghost predicate ValidConfig(cfg: Config) {
    && Namespace(cfg.ns)
    && cfg.labelsKey != cfg.resourcesKey && cfg.labelsKey != cfg.annotationsKey
      && cfg.resourcesKey != cfg.annotationsKey
    && (forall k :: k in cfg.Reserved() ==> Patchable(k) && cfg.prefix <= k)
  }

  ghost predicate PatchableKeys(m: Items) {
    forall k :: k in m ==> Patchable(k)
  }

  /** Keys of a stored node are valid Kubernetes names. */
  ghost predicate ValidNode(node: Node) {
    PatchableKeys(node.labels) && PatchableKeys(node.annotations) && PatchableKeys(node.capacity)
      && PatchableKeys(node.allocatable)
  }

  ghost predicate ValidItems(cfg: Config, m: Items) {
    PatchableKeys(m) && AllTrackable(m.Keys, cfg.ns)
  }

  /** Keys of desired items have passed validation, which keeps feature annotations off the reserved keys. */
  ghost predicate ValidDesired(cfg: Config, d: Desired) {
    && ValidItems(cfg, d.labels) && ValidItems(cfg, d.annotations) && ValidItems(cfg, d.resources)
    && d.annotations.Keys !! cfg.Reserved()
  }

  // ---- updateNodeObject ----

  ghost function StaleResources(cfg: Config, snap: Node, d: Desired): seq<string> {
    Stale(TrackedResources(cfg, snap), snap.capacity, d.resources)
  }

  ghost function NeededResources(cfg: Config, snap: Node, d: Desired): Ops {
    ResourceOps(cfg.asInt, snap.capacity, d.resources)
  }

  /** Nothing about the extended resources has to change. */
  ghost predicate StatusIdle(cfg: Config, snap: Node, d: Desired) {
    StaleResources(cfg, snap, d) == [] && NeededResources(cfg, snap, d) == map[]
  }

  /** The status patch computed from `snap` fits the stored node. */
  ghost predicate StatusFits(cfg: Config, snap: Node, d: Desired, cur: Node) {
    var stale := StaleResources(cfg, snap, d);
    RemovalsFit(cur, stale) && Applicable(Dropped(cur, stale), NeededResources(cfg, snap, d))
  }

  ghost function StatusDone(cfg: Config, snap: Node, d: Desired, cur: Node): Node {
    if StatusIdle(cfg, snap, d) then cur
    else Settled(cur.capacity, Effect(Dropped(cur, StaleResources(cfg, snap, d)), NeededResources(cfg, snap, d)))
  }

  /** The metadata patch computed from `snap` fits the stored node. */
  ghost predicate MetaFits(cfg: Config, snap: Node, d: Desired, cur: Node) {
    Applicable(cur, MetaOps(cfg, snap, d))
  }

  datatype Outcome = Outcome(ok: bool, node: Node)

  /** What an update computed from the reading `snap` makes of the stored node `cur`. */
  ghost function UpdateOutcome(cfg: Config, snap: Node, d: Desired, cur: Node, statusOutage: bool,
      metaOutage: bool): Outcome
  {
    if !StatusIdle(cfg, snap, d) && (statusOutage || !StatusFits(cfg, snap, d, cur)) then Outcome(false, cur)
    else
      var next := StatusDone(cfg, snap, d, cur);
      if MetaOps(cfg, snap, d) != map[] && (metaOutage || !MetaFits(cfg, snap, d, next)) then Outcome(false, next)
      else Outcome(true, Effect(next, MetaOps(cfg, snap, d)))
  }

  lemma NoOpsListed(ps: seq<Patch>, ts: seq<Target>, ops: Ops)
    requires Lists(ps, ts, ops)
    ensures ps == [] <==> ops == map[]
  {
    if ps == [] {
      assert ts == [] && ops == map[];
    } else {
      assert ts[0] in ts;
    }
  }

  lemma NoRemovals(names: seq<string>)
    ensures Removals(names) == [] <==> names == []
  {
    if names != [] {
      assert |RemovalPair(names[0])| == 2;
    }
  }

  lemma ResourceTargets(cfg: Config, snap: Node, d: Desired)
    requires ValidNode(snap) && ValidDesired(cfg, d)
    ensures PatchableTargets(NeededResources(cfg, snap, d))
    ensures forall x :: x in StaleResources(cfg, snap, d) ==> Patchable(x)
  {
    forall t | t in NeededResources(cfg, snap, d) ensures Patchable(t.key) {
      ResourceOpsAt(cfg.asInt, snap.capacity, d.resources, t);
    }
  }

  /** The status request of an update, from the patches it sends. */
  lemma StatusRequest(cfg: Config, snap: Node, d: Desired, cur: Node, patches: seq<Patch>, needed: seq<Patch>,
      ts: seq<Target>)
    requires ValidNode(snap) && ValidDesired(cfg, d)
    requires patches == Removals(StaleResources(cfg, snap, d)) + needed
    requires Lists(needed, ts, NeededResources(cfg, snap, d))
    ensures patches == [] <==> StatusIdle(cfg, snap, d)
    ensures ApplyAll(cur, patches).Some? <==> StatusFits(cfg, snap, d, cur)
    ensures StatusFits(cfg, snap, d, cur) && patches != [] ==>
      Settled(cur.capacity, ApplyAll(cur, patches).value) == StatusDone(cfg, snap, d, cur)
  {
    var stale := StaleResources(cfg, snap, d);
    NoOpsListed(needed, ts, NeededResources(cfg, snap, d));
    NoRemovals(stale);
    ResourceTargets(cfg, snap, d);
    ApplyAllConcat(cur, Removals(stale), needed);
    RemovalsApply(cur, stale);
    if RemovalsFit(cur, stale) {
      ApplyListed(Dropped(cur, stale), needed, ts, NeededResources(cfg, snap, d));
    }
  }

  lemma AssembledKeys(cfg: Config, d: Desired, lv: string, rv: string, av: string, k: string)
    ensures k in Assembled(cfg, d, lv, rv, av) <==>
      || k in d.annotations
      || (k == cfg.labelsKey && d.labels != map[])
      || (k == cfg.resourcesKey && d.resources != map[])
      || (k == cfg.annotationsKey && d.annotations != map[])
  {
  }

  lemma WantedAt(cfg: Config, d: Desired, k: string)
    ensures k in WantedAnnotations(cfg, d) <==>
      || k in d.annotations
      || (k == cfg.labelsKey && d.labels != map[])
      || (k == cfg.resourcesKey && d.resources != map[])
      || (k == cfg.annotationsKey && d.annotations != map[])
  {
    AssembledKeys(cfg, d, TrackingValue(d.labels.Keys, cfg.ns), TrackingValue(d.resources.Keys, cfg.ns),
      TrackingValue(d.annotations.Keys, cfg.ns), k);
  }

  /** A desired annotation is wanted with its value; else only the three tracking annotations are. */
  lemma AssembledValues(cfg: Config, d: Desired, lv: string, rv: string, av: string, k: string)
    ensures var m := Assembled(cfg, d, lv, rv, av);
      && (k in d.annotations ==> k in m && m[k] == d.annotations[k])
      && (k !in d.annotations && k !in {cfg.labelsKey, cfg.resourcesKey, cfg.annotationsKey} ==> k !in m)
  {
  }

  lemma WantedValues(cfg: Config, d: Desired, k: string)
    ensures var m := WantedAnnotations(cfg, d);
      && (k in d.annotations ==> k in m && m[k] == d.annotations[k])
      && (k !in d.annotations && k !in {cfg.labelsKey, cfg.resourcesKey, cfg.annotationsKey} ==> k !in m)
  {
    AssembledValues(cfg, d, TrackingValue(d.labels.Keys, cfg.ns), TrackingValue(d.resources.Keys, cfg.ns),
      TrackingValue(d.annotations.Keys, cfg.ns), k);
  }

  lemma WantedPatchable(cfg: Config, d: Desired)
    requires ValidConfig(cfg) && ValidDesired(cfg, d)
    ensures PatchableKeys(WantedAnnotations(cfg, d))
  {
    forall k | k in WantedAnnotations(cfg, d) ensures Patchable(k) {
      WantedAt(cfg, d, k);
      assert k in d.annotations || k in cfg.Reserved();
    }
  }

  lemma DiffTargets(diff: Diff, c: Container)
    requires PatchableKeys(diff.have) && PatchableKeys(diff.want)
    ensures PatchableTargets(diff.Ops(c))
  {
    forall t | t in diff.Ops(c) ensures Patchable(t.key) {
      diff.OpsAt(c, t);
    }
  }

  lemma MetaTargets(cfg: Config, snap: Node, d: Desired)
    requires ValidConfig(cfg) && ValidNode(snap) && ValidDesired(cfg, d)
    ensures PatchableTargets(MetaOps(cfg, snap, d))
  {
    WantedPatchable(cfg, d);
    DiffTargets(LabelDiff(cfg, snap, d), Labels);
    DiffTargets(AnnotationDiff(cfg, snap, d), Annotations);
  }

  lemma DistinctConcat<T>(xs: seq<T>, ys: seq<T>)
    requires Distinct(xs) && Distinct(ys) && forall x :: x in xs ==> x !in ys
    ensures Distinct(xs + ys)
  {
    forall i, j | 0 <= i < j < |xs + ys| ensures (xs + ys)[i] != (xs + ys)[j] {
      if i < |xs| <= j {
        assert xs[i] in xs && ys[j - |xs|] in ys;
      }
    }
  }

  lemma ConcatKeys(ts: seq<Target>, a: Ops, us: seq<Target>, b: Ops, t: Target)
    requires (t in ts <==> t in a) && (t in us <==> t in b)
    ensures t in ts + us <==> t in a + b
  {
  }

  lemma ListsConcat(ps: seq<Patch>, ts: seq<Target>, a: Ops, qs: seq<Patch>, us: seq<Target>, b: Ops)
    requires Lists(ps, ts, a) && Lists(qs, us, b) && a.Keys !! b.Keys
    ensures Lists(ps + qs, ts + us, a + b)
  {
    DistinctConcat(ts, us);
    forall t ensures t in ts + us <==> t in a + b {
      ConcatKeys(ts, a, us, b, t);
    }
    forall i | 0 <= i < |ts + us| ensures (ps + qs)[i] == Render((ts + us)[i], (a + b)[(ts + us)[i]]) {
      if i < |ts| {
        assert ts[i] in ts;
      } else {
        assert us[i - |ts|] in us;
      }
    }
  }

  lemma MetaLists(cfg: Config, snap: Node, d: Desired, ps: seq<Patch>, ts: seq<Target>, qs: seq<Patch>, us: seq<Target>)
    requires Lists(ps, ts, LabelDiff(cfg, snap, d).Ops(Labels))
    requires Lists(qs, us, AnnotationDiff(cfg, snap, d).Ops(Annotations))
    ensures Lists(ps + qs, ts + us, MetaOps(cfg, snap, d))
  {
    DiffElsewhere(LabelDiff(cfg, snap, d), Labels);
    DiffElsewhere(AnnotationDiff(cfg, snap, d), Annotations);
    ListsConcat(ps, ts, LabelDiff(cfg, snap, d).Ops(Labels), qs, us, AnnotationDiff(cfg, snap, d).Ops(Annotations));
  }

  /** The value of a tracking annotation: the keys of a map, in whatever order it yields them. */
  method TrackingList(items: Items, ns: string) returns (value: string)
    ensures value == TrackingValue(items.Keys, ns)
  {
    var names: seq<string> := [];
    ghost var keys: seq<string> := [];
    var todo := items.Keys;
    while todo != {}
      invariant todo <= items.Keys
      invariant multiset(keys) == multiset(items.Keys - todo)
      invariant names == Apply(Short(ns), keys)
    {
      var key :| key in todo;
      MoveOne(items.Keys, todo, keys, key);
      ApplyOne(Short(ns), keys, key);
      todo := todo - {key};
      names := names + [TrimPrefix(key, ns + "/")];
      keys := keys + [key];
    }
    assert items.Keys - todo == items.Keys;
    TrackingValueOrder(items.Keys, ns, keys);
    value := Join(SortStrings(names), ',');
  }

  method AnnotationsFor(cfg: Config, d: Desired) returns (annotations: Items)
    ensures annotations == WantedAnnotations(cfg, d)
  {
    var labels := TrackingList(d.labels, cfg.ns);
    var resources := TrackingList(d.resources, cfg.ns);
    var features := TrackingList(d.annotations, cfg.ns);
    annotations := Assembled(cfg, d, labels, resources, features);
  }

  /** The patches on labels and annotations. */
  method MetaPatches(cfg: Config, node: Node, d: Desired) returns (patches: seq<Patch>, ghost ts: seq<Target>)
    ensures Lists(patches, ts, MetaOps(cfg, node, d))
    ensures Carries(patches, MetaOps(cfg, node, d))
  {
    var annotations := AnnotationsFor(cfg, d);
    var oldLabels := StringToNsNames(Value(node.annotations, cfg.labelsKey), cfg.ns);
    var oldAnnotations := StringToNsNames(Value(node.annotations, cfg.annotationsKey), cfg.ns);
    var labelPatches, ls := CreatePatches(Diff(Elems(oldLabels), node.labels, d.labels, cfg.allowOverwrite), Labels);
    var annotationPatches, us := CreatePatches(
      Diff(Elems(oldAnnotations) + cfg.Reserved(), node.annotations, annotations, cfg.allowOverwrite), Annotations);
    MetaLists(cfg, node, d, labelPatches, ls, annotationPatches, us);
    patches, ts := labelPatches + annotationPatches, ls + us;
  }

  lemma MetaRequest(cfg: Config, snap: Node, d: Desired, cur: Node, patches: seq<Patch>, ts: seq<Target>)
    requires ValidConfig(cfg) && ValidNode(snap) && ValidDesired(cfg, d)
    requires Lists(patches, ts, MetaOps(cfg, snap, d))
    ensures patches == [] <==> MetaOps(cfg, snap, d) == map[]
    ensures ApplyAll(cur, patches) ==
      if MetaFits(cfg, snap, d, cur) then Some(Effect(cur, MetaOps(cfg, snap, d))) else None
  {
    MetaTargets(cfg, snap, d);
    NoOpsListed(patches, ts, MetaOps(cfg, snap, d));
    ApplyListed(cur, patches, ts, MetaOps(cfg, snap, d));
  }

  /** The status request, when there is anything to change. */
  method UpdateStatus(server: ApiServer, cfg: Config, node: Node, d: Desired, outage: bool) returns (ok: bool)
    requires ValidNode(node) && ValidDesired(cfg, d)
    modifies server
    ensures ok <==> StatusIdle(cfg, node, d) || (!outage && StatusFits(cfg, node, d, old(server.node)))
    ensures server.node == if ok then StatusDone(cfg, node, d, old(server.node)) else old(server.node)
  {
    var oldResources := StringToNsNames(Value(node.annotations, cfg.resourcesKey), cfg.ns);
    var patches, needed, ts := CreateResourcePatches(cfg.asInt, oldResources, node.capacity, d.resources);
    StatusRequest(cfg, node, d, server.node, patches, needed, ts);
    ok := server.PatchStatus(patches, outage);
  }

  /** `updateNodeObject`, working from the reading `node` of the object on the server. */
  method UpdateNodeObject(server: ApiServer, cfg: Config, node: Node, d: Desired, statusOutage: bool, metaOutage: bool)
    returns (ok: bool)
    requires ValidConfig(cfg) && ValidNode(node) && ValidDesired(cfg, d)
    modifies server
    ensures Outcome(ok, server.node) == UpdateOutcome(cfg, node, d, old(server.node), statusOutage, metaOutage)
  {
    var patches, ts := MetaPatches(cfg, node, d);
    ok := UpdateStatus(server, cfg, node, d, statusOutage);
    if !ok { return; }
    MetaRequest(cfg, node, d, server.node, patches, ts);
    NoOps(server.node);
    ok := server.Patch(patches, metaOutage);
  }
}
