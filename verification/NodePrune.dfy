/**
 Pruning (`prune`), and what goes wrong when overwriting is not allowed
 (pkg/nfd-master/nfd-master.go).
 */
module NodePrune {
  import opened Strings
  import opened JsonPatch
  import opened Tracking
  import opened NodePatches
  import opened NodeUpdate
  import opened NodeRuns
  import opened NodeEdits
  import opened NodeHistory
  import opened NodeRepeat

  const NOTHING := Desired(map[], map[], map[])

  function WithoutPrefix(m: Items, prefix: string): Items {
    map k | k in m && !(prefix <= k) :: m[k]
  }

  /** Gone with the prefix and when owned, and as it was otherwise. */
  ghost predicate PrunedAt(after: Items, before: Items, prefix: string, owned: set<string>, k: string) {
    if prefix <= k || k in owned then k !in after else SameAt(after, before, k)
  }

  lemma PrunesAt(m: Items, prefix: string, owned: set<string>, k: string)
    ensures PrunedAt(WithoutPrefix(Minus(m, owned), prefix), m, prefix, owned, k)
  {
  }

  lemma PrunesAll(m: Items, prefix: string)
    ensures forall k :: PrunedAt(WithoutPrefix(m, prefix), m, prefix, {}, k)
  {
    assert Minus(m, {}) == m;
    forall k ensures PrunedAt(WithoutPrefix(m, prefix), m, prefix, {}, k) {
      PrunesAt(m, prefix, {}, k);
    }
  }

  /** The body of the loop of `prune`: empty update, re-read, drop the instance's annotations, store. */
  method PruneNode(server: ApiServer, cfg: Config, node: Node, statusOutage: bool, metaOutage: bool, storeOutage: bool)
    returns (ok: bool)
    requires ValidConfig(cfg) && ValidNode(node)
    modifies server
    ensures var o := UpdateOutcome(cfg, node, NOTHING, old(server.node), statusOutage, metaOutage);
      && ok == (o.ok && !storeOutage)
      && server.node == (if ok then o.node.(annotations := WithoutPrefix(o.node.annotations, cfg.prefix)) else o.node)
      && (ok ==> forall k :: PrunedAt(server.node.annotations, o.node.annotations, cfg.prefix, {}, k))
  {
    ok := UpdateNodeObject(server, cfg, node, NOTHING, statusOutage, metaOutage);
    if ok {
      var reread := server.node;
      PrunesAll(reread.annotations, cfg.prefix);
      reread := reread.(annotations := WithoutPrefix(reread.annotations, cfg.prefix));
      ok := !storeOutage;
      if ok { server.node := reread; }
    }
  }

  /**
   After any run and a prune, labels and annotations are what they would be without the master, less
   every key the master ever owned and every annotation with the instance's prefix. So are capacity and
   allocatable amounts, but for leaked resources.
   */
  lemma RunThenPrune(cfg: Config, node: Node, es: seq<Event>, pruned: Node)
    requires ValidConfig(cfg) && cfg.allowOverwrite && Possible(cfg, Start(cfg, node), es)
    requires var s := Run(cfg, Start(cfg, node), es);
      var o := UpdateOutcome(cfg, s.node, NOTHING, s.node, false, false);
      o.ok && pruned == o.node.(annotations := WithoutPrefix(o.node.annotations, cfg.prefix))
    ensures var s := Run(cfg, Start(cfg, node), es);
      var leaked := AfterUpdate(cfg, s, NOTHING, false, false).leaked;
      && pruned.labels == Minus(s.world.labels, s.owned.labels)
      && pruned.annotations == WithoutPrefix(Minus(s.world.annotations, s.owned.annotations), cfg.prefix)
      && (forall k :: PrunedAt(pruned.annotations, s.world.annotations, cfg.prefix, s.owned.annotations, k))
      && Minus(pruned.capacity, leaked) == Minus(s.world.capacity, s.owned.resources) && leaked <= pruned.capacity.Keys
      && (pruned.capacity == Minus(s.world.capacity, s.owned.resources) <==> leaked == {})
      && (Paired(cfg, node) ==> Minus(pruned.allocatable, leaked) == Minus(s.world.allocatable, s.owned.resources))
  {
    var s := Run(cfg, Start(cfg, node), es);
    StartInv(cfg, node);
    RunKeepsInv(cfg, Start(cfg, node), es);
    PruneState(cfg, s);
    forall k ensures PrunedAt(pruned.annotations, s.world.annotations, cfg.prefix, s.owned.annotations, k) {
      PrunesAt(s.world.annotations, cfg.prefix, s.owned.annotations, k);
    }
  }

  lemma WantNothing(cfg: Config)
    ensures ValidDesired(cfg, NOTHING) && WantedAnnotations(cfg, NOTHING) == map[]
  {
  }

  lemma PlusNothing(m: Items, owned: set<string>)
    ensures var none: Items := map[]; owned + none.Keys == owned && Minus(m, owned) + none == Minus(m, owned)
  {
  }

  lemma NothingPlaced(leaked: set<string>)
    ensures NOTHING.resources.Keys + leaked == leaked
  {
  }

  lemma PruneState(cfg: Config, s: State)
    requires ValidConfig(cfg) && cfg.allowOverwrite && Inv(cfg, s)
    requires UpdateOutcome(cfg, s.node, NOTHING, s.node, false, false).ok
    ensures var t := AfterUpdate(cfg, s, NOTHING, false, false);
      && t.node.labels == Minus(s.world.labels, s.owned.labels)
      && t.node.annotations == Minus(s.world.annotations, s.owned.annotations)
      && Minus(t.node.capacity, t.leaked) == Minus(s.world.capacity, s.owned.resources)
      && t.leaked <= t.node.capacity.Keys
      && (t.node.capacity == Minus(s.world.capacity, s.owned.resources) <==> t.leaked == {})
      && (AllocatableInv(cfg, s) ==>
        Minus(t.node.allocatable, t.leaked) == Minus(s.world.allocatable, s.owned.resources))
  {
    var t := AfterUpdate(cfg, s, NOTHING, false, false);
    WantNothing(cfg);
    UpdateEnds(cfg, s.node, NOTHING, false, false);
    AfterUpdateInv(cfg, s, NOTHING, false, false);
    PlusNothing(s.world.labels, s.owned.labels);
    PlusNothing(s.world.annotations, s.owned.annotations);
    PlusNothing(s.world.capacity, s.owned.resources);
    NothingPlaced(t.leaked);
    ResourcesReconciledExactly(cfg, t);
    MinusNothing(t.node.capacity);
  }

  lemma MinusNothing(m: Items)
    ensures Minus(m, NOTHING.resources.Keys) == m
  {
  }

  ghost predicate Succeeds(cfg: Config, s: State, e: Event) {
    e.Update? && Ending(cfg, s, e).ok
  }

  predicate Within(a: Owned, b: Owned) {
    a.labels <= b.labels && a.annotations <= b.annotations && a.resources <= b.resources
  }

  lemma SuccessReaches(cfg: Config, s: State, e: Event)
    requires e.Update? && Ending(cfg, s, e).ok
    ensures Reaches(cfg, s, e)
  {
  }

  lemma OwnedGrows(cfg: Config, s: State, e: Event)
    ensures Within(s.owned, Next(cfg, s, e).owned)
    ensures Succeeds(cfg, s, e) ==> Within(Desires(e.d), Next(cfg, s, e).owned)
  {
    if Succeeds(cfg, s, e) { SuccessReaches(cfg, s, e); }
  }

  lemma {:induction false} OwnedStays(cfg: Config, s: State, es: seq<Event>)
    ensures Within(s.owned, Run(cfg, s, es).owned)
    decreases |es|
  {
    if es != [] {
      OwnedGrows(cfg, s, es[0]);
      OwnedStays(cfg, Next(cfg, s, es[0]), es[1..]);
    }
  }

  lemma {:induction false} RunSplit(cfg: Config, s: State, es: seq<Event>, i: nat)
    requires i <= |es|
    ensures Run(cfg, s, es) == Run(cfg, Run(cfg, s, es[..i]), es[i..])
    decreases |es|
  {
    if i == 0 {
      assert es[..0] == [] && es[0..] == es;
    } else {
      assert es[..i][0] == es[0] && es[..i][1..] == es[1..][..i - 1] && es[1..][i - 1..] == es[i..];
      RunSplit(cfg, Next(cfg, s, es[0]), es[1..], i - 1);
    }
  }

  /** What is owned stays owned, and what a successful update desires is owned from then on. */
  lemma DesiredIsOwned(cfg: Config, s: State, es: seq<Event>, i: nat)
    requires i < |es|
    ensures Within(s.owned, Run(cfg, s, es).owned)
    ensures Succeeds(cfg, Run(cfg, s, es[..i]), es[i]) ==> Within(Desires(es[i].d), Run(cfg, s, es).owned)
  {
    var mid := Run(cfg, s, es[..i]);
    RunSplit(cfg, s, es, i);
    OwnedStays(cfg, s, es);
    OwnedGrows(cfg, mid, es[i]);
    assert es[i..][0] == es[i];
    OwnedStays(cfg, Next(cfg, mid, es[i]), es[i..][1..]);
  }

  function EditOf(e: Event): Edit {
    match e
    case Update(_, _, _, amid) => amid
    case Foreign(edit) => edit
  }

  /** The world column changes only where others edit: without such edits it keeps its value. */
  lemma {:induction false} WorldUntouched(cfg: Config, s: State, es: seq<Event>, k: string)
    requires NeverEdited(es, k)
    ensures SameAt(Run(cfg, s, es).world.labels, s.world.labels, k)
    decreases |es|
  {
    if es != [] {
      assert k !in EditOf(es[0]).labels.Touched();
      OnAt(EditOf(es[0]).labels, s.world.labels, k);
      assert forall i :: 0 <= i < |es[1..]| ==> es[1..][i] == es[i + 1];
      WorldUntouched(cfg, Next(cfg, s, es[0]), es[1..], k);
    }
  }

  ghost predicate NeverDesired(es: seq<Event>, k: string) {
    forall i :: 0 <= i < |es| && es[i].Update? ==> k !in es[i].d.labels
  }

  ghost predicate NeverEdited(es: seq<Event>, k: string) {
    forall i :: 0 <= i < |es| ==> k !in EditOf(es[i]).labels.Touched()
  }

  /** Only desired labels become owned. */
  lemma {:induction false} OwnedOnlyDesired(cfg: Config, s: State, es: seq<Event>, k: string)
    requires k !in s.owned.labels && NeverDesired(es, k)
    ensures k !in Run(cfg, s, es).owned.labels
    decreases |es|
  {
    if es != [] {
      assert es[0].Update? ==> k !in es[0].d.labels;
      assert forall i :: 0 <= i < |es[1..]| ==> es[1..][i] == es[i + 1];
      OwnedOnlyDesired(cfg, Next(cfg, s, es[0]), es[1..], k);
    }
  }

  /** A label never desired, not tracked at the start and not edited by others is the same after a run and a prune. */
  lemma OthersSurvive(cfg: Config, node: Node, es: seq<Event>, pruned: Node, k: string)
    requires ValidConfig(cfg) && cfg.allowOverwrite && Possible(cfg, Start(cfg, node), es)
    requires var s := Run(cfg, Start(cfg, node), es);
      var o := UpdateOutcome(cfg, s.node, NOTHING, s.node, false, false);
      o.ok && pruned == o.node.(annotations := WithoutPrefix(o.node.annotations, cfg.prefix))
    requires k !in TrackedLabels(cfg, node) && NeverDesired(es, k) && NeverEdited(es, k)
    ensures SameAt(pruned.labels, node.labels, k)
  {
    RunThenPrune(cfg, node, es, pruned);
    OwnedOnlyDesired(cfg, Start(cfg, node), es, k);
    WorldUntouched(cfg, Start(cfg, node), es, k);
  }

  // ---- A resource that is left behind ----

  const EMPTY_NODE := Node(map[], map[], map[], map[])

  function OneResource(k: string): Desired {
    Desired(map[], map[], map[k := "1"])
  }

  lemma OneResourceValid(cfg: Config, k: string)
    requires Patchable(k) && Trackable(k, cfg.ns)
    ensures ValidDesired(cfg, OneResource(k))
  {
  }

  /** On a node without capacities the status request only adds. */
  lemma AddingFits(cfg: Config, node: Node, d: Desired)
    requires node.capacity == map[]
    ensures Through(cfg, node, d, false)
  {
    NothingStale(TrackedResources(cfg, node), node.capacity, d.resources);
    DropNone(node);
    forall t | t in NeededResources(cfg, node, d) ensures AppliesAt(node, t, NeededResources(cfg, node, d)[t]) {
      ResourceOpsAt(cfg.asInt, node.capacity, d.resources, t);
    }
  }

  lemma MetaOutageStops(cfg: Config, node: Node, d: Desired)
    requires MetaOps(cfg, node, d) != map[]
    ensures !UpdateOutcome(cfg, node, d, node, false, true).ok
  {
  }

  /** The status request gets through and the metadata request does not. */
  lemma OneResourceHalfDone(cfg: Config, k: string)
    ensures Through(cfg, EMPTY_NODE, OneResource(k), false)
    ensures !UpdateOutcome(cfg, EMPTY_NODE, OneResource(k), EMPTY_NODE, false, true).ok
  {
    AddingFits(cfg, EMPTY_NODE, OneResource(k));
    assert k in OneResource(k).resources;
    RecordNeeded(cfg, EMPTY_NODE, OneResource(k));
    MetaOutageStops(cfg, EMPTY_NODE, OneResource(k));
  }

  /** With nothing tracked and nothing desired there is nothing to change in the status. */
  lemma NothingTracked(cfg: Config, node: Node)
    requires cfg.resourcesKey !in node.annotations
    ensures Tracked(cfg, node) == {} && Through(cfg, node, NOTHING, false)
  {
    NothingStale(TrackedResources(cfg, node), node.capacity, NOTHING.resources);
    forall t ensures t !in NeededResources(cfg, node, NOTHING) {
      ResourceOpsAt(cfg.asInt, node.capacity, NOTHING.resources, t);
    }
  }

  /** The first update of the run below stops half-way, and the second can be called. */
  lemma HalfDoneState(cfg: Config, k: string)
    requires ValidConfig(cfg) && Patchable(k) && Trackable(k, cfg.ns)
    ensures var s, first, second := Start(cfg, EMPTY_NODE), Placing(k), Update(NOTHING, false, false, NO_EDIT);
      && Enabled(cfg, s, first) && Tracked(cfg, EMPTY_NODE) == {} && Reaches(cfg, s, first) && !Ending(cfg, s, first).ok
      && Enabled(cfg, Next(cfg, s, first), second) && Reaches(cfg, Next(cfg, s, first), second)
  {
    var s, first := Start(cfg, EMPTY_NODE), Placing(k);
    OneResourceValid(cfg, k);
    WantNothing(cfg);
    OneResourceHalfDone(cfg, k);
    NoEdit(EMPTY_NODE);
    UpdateEnds(cfg, EMPTY_NODE, OneResource(k), false, true);
    NothingTracked(cfg, EMPTY_NODE);
    var mid := Next(cfg, s, first).node;
    NoEdit(mid);
    NothingTracked(cfg, mid);
  }

  /** An update that places one resource and does not get to record it. */
  function Placing(k: string): Event {
    Update(OneResource(k), false, true, NO_EDIT)
  }

  /**
   An update places one resource on an empty node and stops before the metadata; the next desires
   nothing. The resource is still there, and tracked by nobody.
   */
  lemma ResourceLeft(cfg: Config, k: string)
    requires ValidConfig(cfg) && cfg.allowOverwrite && Patchable(k) && Trackable(k, cfg.ns)
    ensures var s := Next(cfg, Next(cfg, Start(cfg, EMPTY_NODE), Placing(k)), Update(NOTHING, false, false, NO_EDIT));
      k in s.leaked && k in s.node.capacity
  {
    StartInv(cfg, EMPTY_NODE);
    HalfDoneState(cfg, k);
    assert k in OneResource(k).resources;
    HalfDoneLeaksExactly(cfg, Start(cfg, EMPTY_NODE), Placing(k), Update(NOTHING, false, false, NO_EDIT), k);
  }

  // ---- Without overwriting ----

  lemma KeptValue(diff: Diff, cur: Items, k: string)
    requires k in diff.remove && !diff.overwrite
    ensures Value(diff.Result(cur), k) == if k !in diff.want then "" else if k in cur then cur[k] else diff.want[k]
  {
  }

  /** The three annotations in which the master records what it owns. */
  datatype Record = OfLabels | OfResources | OfAnnotations {
    function Key(cfg: Config): string {
      match this
      case OfLabels => cfg.labelsKey
      case OfResources => cfg.resourcesKey
      case OfAnnotations => cfg.annotationsKey
    }

    function Wanted(d: Desired): Items {
      match this
      case OfLabels => d.labels
      case OfResources => d.resources
      case OfAnnotations => d.annotations
    }

    ghost function Names(cfg: Config, node: Node): set<string> {
      Elems(NsNames(Value(node.annotations, Key(cfg)), cfg.ns))
    }
  }

  lemma LabelsRecord(cfg: Config, d: Desired, lv: string, rv: string, av: string)
    requires ValidConfig(cfg) && cfg.Reserved() !! d.annotations.Keys
    ensures var m := Assembled(cfg, d, lv, rv, av);
      (cfg.labelsKey in m <==> d.labels != map[]) && (cfg.labelsKey in m ==> m[cfg.labelsKey] == lv)
  {
    assert cfg.labelsKey in cfg.Reserved();
  }

  lemma ResourcesRecord(cfg: Config, d: Desired, lv: string, rv: string, av: string)
    requires ValidConfig(cfg) && cfg.Reserved() !! d.annotations.Keys
    ensures var m := Assembled(cfg, d, lv, rv, av);
      (cfg.resourcesKey in m <==> d.resources != map[]) && (cfg.resourcesKey in m ==> m[cfg.resourcesKey] == rv)
  {
    assert cfg.resourcesKey in cfg.Reserved();
  }

  lemma AnnotationsRecord(cfg: Config, d: Desired, lv: string, rv: string, av: string)
    requires ValidConfig(cfg) && cfg.Reserved() !! d.annotations.Keys
    ensures var m := Assembled(cfg, d, lv, rv, av);
      (cfg.annotationsKey in m <==> d.annotations != map[]) && (cfg.annotationsKey in m ==> m[cfg.annotationsKey] == av)
  {
    assert cfg.annotationsKey in cfg.Reserved();
  }

  /** The annotation that an update wants for a record: none when there is nothing to record. */
  ghost predicate Recorded(cfg: Config, wanted: Items, key: string, items: Items) {
    (key in wanted <==> items != map[]) && (key in wanted ==> wanted[key] == TrackingValue(items.Keys, cfg.ns))
  }

  lemma AllRecorded(cfg: Config, d: Desired)
    requires ValidConfig(cfg) && ValidDesired(cfg, d)
    ensures Recorded(cfg, WantedAnnotations(cfg, d), cfg.labelsKey, d.labels)
    ensures Recorded(cfg, WantedAnnotations(cfg, d), cfg.resourcesKey, d.resources)
    ensures Recorded(cfg, WantedAnnotations(cfg, d), cfg.annotationsKey, d.annotations)
  {
    var lv, rv := TrackingValue(d.labels.Keys, cfg.ns), TrackingValue(d.resources.Keys, cfg.ns);
    var av := TrackingValue(d.annotations.Keys, cfg.ns);
    LabelsRecord(cfg, d, lv, rv, av);
    ResourcesRecord(cfg, d, lv, rv, av);
    AnnotationsRecord(cfg, d, lv, rv, av);
  }

  lemma RecordedCase(cfg: Config, d: Desired, wanted: Items, r: Record)
    requires Recorded(cfg, wanted, cfg.labelsKey, d.labels) && Recorded(cfg, wanted, cfg.resourcesKey, d.resources)
    requires Recorded(cfg, wanted, cfg.annotationsKey, d.annotations)
    ensures Recorded(cfg, wanted, r.Key(cfg), r.Wanted(d))
  {
  }

  lemma WantedRecord(cfg: Config, d: Desired, r: Record)
    requires ValidConfig(cfg) && ValidDesired(cfg, d)
    ensures Recorded(cfg, WantedAnnotations(cfg, d), r.Key(cfg), r.Wanted(d))
  {
    AllRecorded(cfg, d);
    RecordedCase(cfg, d, WantedAnnotations(cfg, d), r);
  }

  lemma RecordReserved(cfg: Config, r: Record)
    ensures r.Key(cfg) in cfg.Reserved()
  {
  }

  lemma KeptTracking(cfg: Config, node: Node, d: Desired, after: Node, r: Record)
    requires ValidConfig(cfg) && ValidDesired(cfg, d) && !cfg.allowOverwrite && Updated(cfg, node, d) == Some(after)
    ensures Value(after.annotations, r.Key(cfg)) ==
      if r.Wanted(d) == map[] then ""
      else if r.Key(cfg) in node.annotations then node.annotations[r.Key(cfg)]
      else TrackingValue(r.Wanted(d).Keys, cfg.ns)
  {
    UpdateSteps(cfg, node, d);
    WantedRecord(cfg, d, r);
    RecordReserved(cfg, r);
    KeptValue(AnnotationDiff(cfg, node, d), node.annotations, r.Key(cfg));
  }

  lemma RecordRead(cfg: Config, d: Desired, after: Node, r: Record)
    requires ValidConfig(cfg) && ValidDesired(cfg, d)
    requires Value(after.annotations, r.Key(cfg)) ==
      if r.Wanted(d) == map[] then "" else TrackingValue(r.Wanted(d).Keys, cfg.ns)
    ensures r.Names(cfg, after) == r.Wanted(d).Keys
  {
    ReadBack(r.Wanted(d), cfg.ns, Value(after.annotations, r.Key(cfg)));
    ElemsOf(NsNames(Value(after.annotations, r.Key(cfg)), cfg.ns), r.Wanted(d).Keys);
  }

  lemma OverwrittenTracking(cfg: Config, node: Node, d: Desired, after: Node, r: Record)
    requires ValidConfig(cfg) && ValidDesired(cfg, d) && cfg.allowOverwrite && Updated(cfg, node, d) == Some(after)
    ensures r.Names(cfg, after) == r.Wanted(d).Keys
  {
    UpdatedTracks(cfg, node, d);
    match r
    case OfLabels => ElemsOf(TrackedLabels(cfg, after), d.labels.Keys);
    case OfResources => ElemsOf(TrackedResources(cfg, after), d.resources.Keys);
    case OfAnnotations => ElemsOf(TrackedAnnotations(cfg, after), d.annotations.Keys);
  }

  /**
   Each of the three tracking annotations names exactly what is desired after an update if and only if
   overwriting is allowed, or there was no such annotation, or nothing is desired, or it named that
   already.
   */
  lemma TrackingExactlyWhen(cfg: Config, node: Node, d: Desired, after: Node, r: Record)
    requires ValidConfig(cfg) && ValidDesired(cfg, d) && Updated(cfg, node, d) == Some(after)
    ensures r.Names(cfg, after) == r.Wanted(d).Keys <==>
      || cfg.allowOverwrite
      || r.Key(cfg) !in node.annotations
      || r.Wanted(d) == map[]
      || r.Names(cfg, node) == r.Wanted(d).Keys
  {
    if cfg.allowOverwrite {
      OverwrittenTracking(cfg, node, d, after, r);
    } else {
      KeptTracking(cfg, node, d, after, r);
      if r.Wanted(d) == map[] || r.Key(cfg) !in node.annotations {
        RecordRead(cfg, d, after, r);
      }
    }
  }

  /** The consequence: a label added under a kept tracking annotation outlives even an empty update. */
  lemma LabelLeaks(cfg: Config, node: Node, d: Desired, after: Node, last: Node, k: string)
    requires ValidConfig(cfg) && ValidDesired(cfg, d) && !cfg.allowOverwrite
    requires Updated(cfg, node, d) == Some(after) && Updated(cfg, after, NOTHING) == Some(last)
    requires cfg.labelsKey in node.annotations && k in d.labels && k !in TrackedLabels(cfg, node)
    ensures k in last.labels
  {
    KeptTracking(cfg, node, d, after, OfLabels);
    assert TrackedLabels(cfg, after) == TrackedLabels(cfg, node);
    UpdateSteps(cfg, node, d);
    assert k in after.labels;
    UpdateSteps(cfg, after, NOTHING);
  }

  // ---- A label that is lost track of ----

  function Labelled(cfg: Config, a: string, tracking: string): Node {
    Node(map[a := "true"], map[cfg.labelsKey := tracking], map[], map[])
  }

  function TwoLabels(a: string, b: string): Desired {
    Desired(map[a := "true", b := "true"], map[], map[])
  }

  /** With no resources on the node and none desired, an update goes through. */
  lemma NoResources(cfg: Config, node: Node, d: Desired)
    requires node.capacity == map[] && d.resources == map[]
    ensures Updated(cfg, node, d).Some? && Updated(cfg, node, d).value.capacity == map[]
  {
    NothingStale(TrackedResources(cfg, node), node.capacity, d.resources);
    forall t ensures t !in NeededResources(cfg, node, d) {
      ResourceOpsAt(cfg.asInt, node.capacity, d.resources, t);
    }
    UpdateSteps(cfg, node, d);
  }

  lemma TwoLabelsValid(cfg: Config, a: string, b: string)
    requires Patchable(a) && Trackable(a, cfg.ns) && Patchable(b) && Trackable(b, cfg.ns)
    ensures ValidDesired(cfg, TwoLabels(a, b))
  {
  }

  lemma LabelledTracks(cfg: Config, a: string)
    requires ValidConfig(cfg) && Trackable(a, cfg.ns)
    ensures Elems(TrackedLabels(cfg, Labelled(cfg, a, TrackingValue({a}, cfg.ns)))) == {a}
  {
    TrackingRoundTrip({a}, cfg.ns);
    ElemsOf(NsNames(TrackingValue({a}, cfg.ns), cfg.ns), {a});
  }

  /** The same from any update that adds a label under a tracking annotation. */
  lemma LabelLost(cfg: Config, node: Node, d: Desired, b: string)
    requires ValidConfig(cfg) && !cfg.allowOverwrite && ValidDesired(cfg, d) && cfg.labelsKey in node.annotations
    requires node.capacity == map[] && d.resources == map[] && b in d.labels && b !in TrackedLabels(cfg, node)
    ensures Updated(cfg, node, d).Some? && Updated(cfg, Updated(cfg, node, d).value, NOTHING).Some?
    ensures TrackedLabels(cfg, Updated(cfg, node, d).value) == TrackedLabels(cfg, node)
    ensures b in Updated(cfg, Updated(cfg, node, d).value, NOTHING).value.labels
  {
    NoResources(cfg, node, d);
    var after := Updated(cfg, node, d).value;
    NoResources(cfg, after, NOTHING);
    assert d.labels != map[];
    KeptTracking(cfg, node, d, after, OfLabels);
    LabelLeaks(cfg, node, d, after, Updated(cfg, after, NOTHING).value, b);
  }

  /**
   Overwriting off, one label on the node and tracked, two desired: the update succeeds, the tracking
   annotation still names one, and the second label outlives an empty update.
   */
  lemma SecondLabelLost(cfg: Config, a: string, b: string)
    requires ValidConfig(cfg) && !cfg.allowOverwrite && a != b
    requires Patchable(a) && Trackable(a, cfg.ns) && Patchable(b) && Trackable(b, cfg.ns)
    ensures var node, d := Labelled(cfg, a, TrackingValue({a}, cfg.ns)), TwoLabels(a, b);
      && Updated(cfg, node, d).Some? && Updated(cfg, Updated(cfg, node, d).value, NOTHING).Some?
      && Elems(TrackedLabels(cfg, Updated(cfg, node, d).value)) == {a}
      && b in Updated(cfg, Updated(cfg, node, d).value, NOTHING).value.labels
  {
    var node, d := Labelled(cfg, a, TrackingValue({a}, cfg.ns)), TwoLabels(a, b);
    TwoLabelsValid(cfg, a, b);
    LabelledTracks(cfg, a);
    assert b !in Elems(TrackedLabels(cfg, node));
    LabelLost(cfg, node, d, b);
  }
}
