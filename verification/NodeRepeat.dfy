/**
 Repeating an update, and retrying one that stopped half-way: `updateNodeObject` sends the status
 patch first and the metadata patch second (pkg/nfd-master/nfd-master.go).
 */
module NodeRepeat {
  import opened Strings
  import opened JsonPatch
  import opened NodePatches
  import opened NodeUpdate
  import opened NodeRuns
  import opened NodeHistory

  lemma SettledDiff(diff: Diff, c: Container)
    requires forall k :: k in diff.want ==> k in diff.have && diff.have[k] == diff.want[k]
    requires forall k :: k in diff.remove && k in diff.have ==> k in diff.want
    ensures diff.Ops(c) == map[]
  {
    forall t ensures t !in diff.Ops(c) {
      diff.OpsAt(c, t);
    }
  }

  lemma LabelsSettled(cfg: Config, node: Node, d: Desired, after: Node)
    requires ValidConfig(cfg) && ValidDesired(cfg, d) && cfg.allowOverwrite && Updated(cfg, node, d) == Some(after)
    ensures LabelDiff(cfg, after, d).Ops(Labels) == map[]
  {
    UpdatedLabels(cfg, node, d, after);
    SettledDiff(LabelDiff(cfg, after, d), Labels);
  }

  lemma SettledPut(rest: Items, want: Items, remove: set<string>, overwrite: bool, c: Container)
    requires forall k :: k in remove && k in rest ==> k in want
    ensures Diff(remove, rest + want, want, overwrite).Ops(c) == map[]
  {
    SettledDiff(Diff(remove, rest + want, want, overwrite), c);
  }

  lemma AnnotationsSettled(cfg: Config, node: Node, d: Desired, after: Node)
    requires ValidConfig(cfg) && ValidDesired(cfg, d) && cfg.allowOverwrite && Updated(cfg, node, d) == Some(after)
    ensures AnnotationDiff(cfg, after, d).Ops(Annotations) == map[]
  {
    UpdatedAnnotations(cfg, node, d, after);
    WantedKeys(cfg, d);
    var rest, want := Minus(node.annotations, OwnedAnnotations(cfg, node)), WantedAnnotations(cfg, d);
    assert cfg.Reserved() <= OwnedAnnotations(cfg, node);
    SettledPut(rest, want, OwnedAnnotations(cfg, after), cfg.allowOverwrite, Annotations);
  }

  /** A second update with the same desired state has no label or annotation patch to send. */
  lemma SecondUpdateQuiet(cfg: Config, node: Node, d: Desired, after: Node)
    requires ValidConfig(cfg) && ValidDesired(cfg, d) && cfg.allowOverwrite && Updated(cfg, node, d) == Some(after)
    ensures MetaOps(cfg, after, d) == map[]
  {
    LabelsSettled(cfg, node, d, after);
    AnnotationsSettled(cfg, node, d, after);
  }

  ghost predicate Canonical(asInt: string -> string, want: Items) {
    forall k :: k in want ==> asInt(want[k]) == want[k]
  }

  lemma SomeMember(xs: seq<string>)
    requires xs != []
    ensures exists x :: x in xs
  {
    assert xs[0] in xs;
  }

  lemma NothingStale(tracked: seq<string>, capacity: Items, want: Items)
    requires forall k :: k in tracked && k in capacity ==> k in want
    ensures Stale(tracked, capacity, want) == []
  {
    var stale := Stale(tracked, capacity, want);
    if stale != [] {
      SomeMember(stale);
    }
  }

  lemma NothingNeeded(asInt: string -> string, capacity: Items, want: Items)
    requires Canonical(asInt, want) && forall k :: k in want ==> ResourceMet(asInt, capacity, k, want[k])
    ensures ResourceOps(asInt, capacity, want) == map[]
  {
    forall t ensures t !in ResourceOps(asInt, capacity, want) {
      ResourceOpsAt(asInt, capacity, want, t);
    }
  }

  // ---- Retry ----

  /** What tracked resources say after the status patch of `d` went through: nothing is stale any more. */
  lemma MidStatus(cfg: Config, node: Node, d: Desired, mid: Node)
    requires mid == StatusDone(cfg, node, d, node)
    ensures mid.labels == node.labels && mid.annotations == node.annotations
    ensures StaleResources(cfg, mid, d) == []
    ensures forall k :: k in d.resources ==> ResourceMet(cfg.asInt, mid.capacity, k, d.resources[k])
  {
    StatusKeepsMeta(cfg, node, d, node);
    forall k | k in d.resources ensures ResourceMet(cfg.asInt, mid.capacity, k, d.resources[k]) {
      StatusCapacity(cfg, node, d, k);
    }
    var tracked := TrackedResources(cfg, mid);
    forall k | k in tracked && k in mid.capacity ensures k in d.resources {
      StatusCapacity(cfg, node, d, k);
    }
    NothingStale(tracked, mid.capacity, d.resources);
  }

  /** With integer values in canonical form the retry has no status patch to send. */
  lemma RetryStatusQuiet(cfg: Config, node: Node, d: Desired, mid: Node)
    requires mid == StatusDone(cfg, node, d, node) && Canonical(cfg.asInt, d.resources)
    ensures StatusIdle(cfg, mid, d)
  {
    MidStatus(cfg, node, d, mid);
    NothingNeeded(cfg.asInt, mid.capacity, d.resources);
  }

  /** A desired resource for which the node has an allocatable amount of its own but no capacity. */
  ghost predicate Orphaned(asInt: string -> string, node: Node, want: Items, k: string) {
    k in want && asInt(want[k]) != want[k] && k !in node.capacity && k in node.allocatable
      && node.allocatable[k] != want[k]
  }

  ghost predicate NoOrphans(cfg: Config, node: Node, d: Desired) {
    forall k :: k in d.resources ==> !Orphaned(cfg.asInt, node, d.resources, k)
  }

  lemma DropNone(node: Node)
    ensures Dropped(node, []) == node
  {
    assert Elems([]) == {};
    assert node.capacity - {} == node.capacity && node.allocatable - {} == node.allocatable;
  }

  /** The status patch of the retry, if there is one, only replaces amounts that are there. */
  lemma RetryFits(cfg: Config, node: Node, d: Desired, mid: Node)
    requires mid == StatusDone(cfg, node, d, node)
    ensures StatusFits(cfg, mid, d, mid)
  {
    MidStatus(cfg, node, d, mid);
    DropNone(mid);
    var ops := NeededResources(cfg, mid, d);
    forall t | t in ops ensures AppliesAt(mid, t, ops[t]) {
      ResourceOpsAt(cfg.asInt, mid.capacity, d.resources, t);
      StatusCapacity(cfg, node, d, t.key);
      StatusAllocatable(cfg, node, d, t.key);
    }
  }

  /** The retry leaves the capacity as it found it. */
  lemma RetryCapacity(cfg: Config, node: Node, d: Desired, mid: Node)
    requires mid == StatusDone(cfg, node, d, node)
    ensures StatusDone(cfg, mid, d, mid).capacity == mid.capacity
  {
    var again := StatusDone(cfg, mid, d, mid).capacity;
    forall k ensures SameAt(again, mid.capacity, k) {
      StatusCapacity(cfg, node, d, k);
      StatusCapacity(cfg, mid, d, k);
      TrackedMid(cfg, node, d, mid, k);
    }
    SameMaps(again, mid.capacity);
  }

  lemma TrackedMid(cfg: Config, node: Node, d: Desired, mid: Node, k: string)
    requires mid == StatusDone(cfg, node, d, node)
    ensures k !in d.resources && k in TrackedResources(cfg, mid) ==> k !in mid.capacity
  {
    StatusKeepsMeta(cfg, node, d, node);
    StatusCapacity(cfg, node, d, k);
  }

  /** It changes the allocatable amount of exactly the orphaned resources. */
  lemma RetryAllocatable(cfg: Config, node: Node, d: Desired, mid: Node, k: string)
    requires mid == StatusDone(cfg, node, d, node)
    ensures SameAt(StatusDone(cfg, mid, d, mid).allocatable, mid.allocatable, k) <==>
      !Orphaned(cfg.asInt, node, d.resources, k)
  {
    StatusCapacity(cfg, node, d, k);
    StatusAllocatable(cfg, node, d, k);
    StatusAllocatable(cfg, mid, d, k);
    TrackedMid(cfg, node, d, mid, k);
  }

  /** A retry always goes through, and ends with the labels, annotations and capacity of an uninterrupted run. */
  lemma RetrySucceeds(cfg: Config, node: Node, d: Desired, mid: Node)
    requires StatusIdle(cfg, node, d) || StatusFits(cfg, node, d, node)
    requires UpdateOutcome(cfg, node, d, node, false, true) == Outcome(false, mid)
    ensures mid == StatusDone(cfg, node, d, node)
    ensures Updated(cfg, node, d).Some? && Updated(cfg, mid, d).Some?
    ensures Updated(cfg, node, d).value.allocatable == mid.allocatable
    ensures Updated(cfg, mid, d).value ==
      Updated(cfg, node, d).value.(allocatable := StatusDone(cfg, mid, d, mid).allocatable)
  {
    MidStatus(cfg, node, d, mid);
    UpdateSteps(cfg, node, d);
    UpdateSteps(cfg, mid, d);
    RetryFits(cfg, node, d, mid);
    RetryCapacity(cfg, node, d, mid);
  }

  lemma RetrySame(cfg: Config, node: Node, d: Desired, mid: Node)
    requires mid == StatusDone(cfg, node, d, node)
    ensures StatusDone(cfg, mid, d, mid).allocatable == mid.allocatable <==> NoOrphans(cfg, node, d)
  {
    var again := StatusDone(cfg, mid, d, mid).allocatable;
    forall k ensures SameAt(again, mid.allocatable, k) <==> !Orphaned(cfg.asInt, node, d.resources, k) {
      RetryAllocatable(cfg, node, d, mid, k);
    }
    if NoOrphans(cfg, node, d) {
      SameMaps(again, mid.allocatable);
    } else {
      var k :| k in d.resources && Orphaned(cfg.asInt, node, d.resources, k);
      assert !SameAt(again, mid.allocatable, k);
    }
  }

  /**
   If the status patch went through and the metadata patch did not, running the same update again from
   the re-read node leads to the node of an uninterrupted run, except where a non-canonical value is
   desired for a resource with an allocatable amount but no capacity.
   */
  lemma RetryReaches(cfg: Config, node: Node, d: Desired, mid: Node)
    requires StatusIdle(cfg, node, d) || StatusFits(cfg, node, d, node)
    requires UpdateOutcome(cfg, node, d, node, false, true) == Outcome(false, mid)
    ensures Updated(cfg, mid, d) == Updated(cfg, node, d) <==> NoOrphans(cfg, node, d)
  {
    RetrySucceeds(cfg, node, d, mid);
    RetrySame(cfg, node, d, mid);
  }

  // ---- A retry that ends elsewhere ----

  /** A node with one allocatable amount and nothing else. */
  function LoneNode(k: string): Node {
    Node(map[], map[], map[], map[k := "1"])
  }

  function OneThousand(k: string): Desired {
    Desired(map[], map[], map[k := "1k"])
  }

  lemma LoneStatus(cfg: Config, k: string)
    ensures StatusFits(cfg, LoneNode(k), OneThousand(k), LoneNode(k))
  {
    var node, d := LoneNode(k), OneThousand(k);
    NothingStale(TrackedResources(cfg, node), node.capacity, d.resources);
    DropNone(node);
    forall t | t in NeededResources(cfg, node, d) ensures AppliesAt(node, t, NeededResources(cfg, node, d)[t]) {
      ResourceOpsAt(cfg.asInt, node.capacity, d.resources, t);
    }
  }

  /** Resources that are not recorded yet need a metadata patch. */
  lemma RecordNeeded(cfg: Config, node: Node, d: Desired)
    requires cfg.resourcesKey !in node.annotations && d.resources != map[]
    ensures MetaOps(cfg, node, d) != map[]
  {
    var t := Target(Annotations, cfg.resourcesKey);
    WantedAt(cfg, d, cfg.resourcesKey);
    AnnotationDiff(cfg, node, d).OpsAt(Annotations, t);
    assert t in MetaOps(cfg, node, d);
  }

  /** An amount of "1" without a capacity and a desired "1k", read as "1000": the retry overwrites the "1". */
  lemma RetryDiffers(cfg: Config, k: string)
    requires cfg.asInt("1k") == "1000"
    ensures var node, d := LoneNode(k), OneThousand(k);
      var mid := StatusDone(cfg, node, d, node);
      && StatusFits(cfg, node, d, node)
      && UpdateOutcome(cfg, node, d, node, false, true) == Outcome(false, mid)
      && Updated(cfg, mid, d) != Updated(cfg, node, d)
  {
    var node, d := LoneNode(k), OneThousand(k);
    LoneStatus(cfg, k);
    assert k in d.resources;
    RecordNeeded(cfg, node, d);
    assert "1k" != "1000" && "1" != "1k";
    assert Orphaned(cfg.asInt, node, d.resources, k);
    RetryReaches(cfg, node, d, StatusDone(cfg, node, d, node));
  }
}
