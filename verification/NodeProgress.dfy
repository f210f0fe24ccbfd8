/**
 Updates of pkg/nfd-master/nfd-master.go get through: the status patch of `updateNodeObject` is the only
 one that can fail to fit, and along a run it always fits.
 */
module NodeProgress {
  import opened Strings
  import opened Sorting
  import opened JsonPatch
  import opened NodePatches
  import opened NodeUpdate
  import opened NodeRuns
  import opened NodeEdits
  import opened NodeHistory

  /** Every capacity has an allocatable amount, as the kubelet keeps it. */
  predicate Covered(node: Node) {
    node.capacity.Keys <= node.allocatable.Keys
  }

  /** The node is covered and its tracking annotation lists no resource twice. */
  ghost predicate Open(cfg: Config, node: Node) {
    Covered(node) && Distinct(TrackedResources(cfg, node))
  }

  lemma {:induction false} StaleDistinct(tracked: seq<string>, capacity: Items, want: Items)
    requires Distinct(tracked)
    ensures Distinct(Stale(tracked, capacity, want))
  {
    if tracked != [] {
      DistinctTail(tracked);
      StaleDistinct(tracked[1..], capacity, want);
    }
  }

  lemma NeededFits(asInt: string -> string, node: Node, stale: seq<string>, want: Items)
    requires Covered(node) && forall x :: x in stale ==> x !in want
    ensures Applicable(Dropped(node, stale), ResourceOps(asInt, node.capacity, want))
  {
    var ops := ResourceOps(asInt, node.capacity, want);
    forall t | t in ops ensures AppliesAt(Dropped(node, stale), t, ops[t]) {
      ResourceOpsAt(asInt, node.capacity, want, t);
    }
  }

  /** On an open node every update goes through. */
  lemma UpdateGoesThrough(cfg: Config, node: Node, d: Desired)
    requires Open(cfg, node)
    ensures Updated(cfg, node, d).Some?
  {
    UpdateSteps(cfg, node, d);
    StaleDistinct(TrackedResources(cfg, node), node.capacity, d.resources);
    NeededFits(cfg.asInt, node, StaleResources(cfg, node, d), d.resources);
  }

  lemma StatusStaysCovered(cfg: Config, node: Node, d: Desired)
    requires Covered(node)
    ensures Covered(StatusDone(cfg, node, d, node))
  {
    var after := StatusDone(cfg, node, d, node);
    forall k | k in after.capacity ensures k in after.allocatable {
      StatusCapacity(cfg, node, d, k);
      StatusAllocatable(cfg, node, d, k);
    }
  }

  /** An update leaves the node open, wherever it stops. */
  lemma UpdateStaysOpen(cfg: Config, node: Node, d: Desired, statusOutage: bool, metaOutage: bool)
    requires ValidConfig(cfg) && cfg.allowOverwrite && ValidDesired(cfg, d) && Open(cfg, node)
    ensures Open(cfg, UpdateOutcome(cfg, node, d, node, statusOutage, metaOutage).node)
  {
    var o := UpdateOutcome(cfg, node, d, node, statusOutage, metaOutage);
    UpdateEnds(cfg, node, d, statusOutage, metaOutage);
    StatusStaysCovered(cfg, node, d);
    if o.ok {
      UpdatedTracks(cfg, node, d);
      ElemsOf(TrackedResources(cfg, o.node), d.resources.Keys);
    }
  }

  /** The edit keeps an allocatable amount for every capacity. */
  ghost predicate Covering(edit: Edit) {
    forall node :: Covered(node) ==> Covered(edit.On(node))
  }

  ghost predicate Fair(e: Event) {
    Covering(if e.Update? then e.amid else e.edit)
  }

  /** Each event is possible where it happens, and edits by others keep the node covered. */
  ghost predicate FairRun(cfg: Config, s: State, es: seq<Event>)
    decreases |es|
  {
    es == [] || (Enabled(cfg, s, es[0]) && Fair(es[0]) && FairRun(cfg, Next(cfg, s, es[0]), es[1..]))
  }

  lemma EditStaysOpen(cfg: Config, s: State, edit: Edit)
    requires Inv(cfg, s) && Open(cfg, s.node) && Avoids(edit, s.owned) && Covering(edit)
    ensures Open(cfg, edit.On(s.node))
  {
    ForeignKeepsTracking(cfg, s, edit);
  }

  lemma FairUpdate(cfg: Config, s: State, e: Event)
    requires ValidConfig(cfg) && cfg.allowOverwrite && Inv(cfg, s) && Open(cfg, s.node) && Enabled(cfg, s, e)
    requires e.Update? && Fair(e)
    ensures Open(cfg, Next(cfg, s, e).node)
  {
    var t := AfterUpdate(cfg, s, e.d, e.statusOutage, e.metaOutage);
    NextUpdate(cfg, s, e);
    AfterUpdateNode(cfg, s, e.d, e.statusOutage, e.metaOutage);
    UpdateStaysOpen(cfg, s.node, e.d, e.statusOutage, e.metaOutage);
    AfterUpdateInv(cfg, s, e.d, e.statusOutage, e.metaOutage);
    AfterUpdateAvoided(cfg, s, e.d, e.statusOutage, e.metaOutage, e.amid);
    EditStaysOpen(cfg, t, e.amid);
  }

  lemma FairStep(cfg: Config, s: State, e: Event)
    requires ValidConfig(cfg) && cfg.allowOverwrite && Inv(cfg, s) && Open(cfg, s.node) && Enabled(cfg, s, e) && Fair(e)
    ensures Open(cfg, Next(cfg, s, e).node)
  {
    if e.Foreign? {
      EditStaysOpen(cfg, s, e.edit);
    } else {
      FairUpdate(cfg, s, e);
    }
  }

  lemma {:induction false} FairRunStaysOpen(cfg: Config, s: State, es: seq<Event>)
    requires ValidConfig(cfg) && cfg.allowOverwrite && Inv(cfg, s) && Open(cfg, s.node) && FairRun(cfg, s, es)
    ensures Open(cfg, Run(cfg, s, es).node)
    decreases |es|
  {
    if es != [] {
      StepKeepsInv(cfg, s, es[0]);
      FairStep(cfg, s, es[0]);
      FairRunStaysOpen(cfg, Next(cfg, s, es[0]), es[1..]);
    }
  }

  /** After every fair run, outages and half-done updates included, an update without outage succeeds. */
  lemma FairRunsGoThrough(cfg: Config, node: Node, es: seq<Event>, d: Desired)
    requires ValidConfig(cfg) && cfg.allowOverwrite && Open(cfg, node) && FairRun(cfg, Start(cfg, node), es)
    ensures Updated(cfg, Run(cfg, Start(cfg, node), es).node, d).Some?
  {
    StartInv(cfg, node);
    FairRunStaysOpen(cfg, Start(cfg, node), es);
    UpdateGoesThrough(cfg, Run(cfg, Start(cfg, node), es).node, d);
  }
}
