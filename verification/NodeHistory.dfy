/**
 Runs of updates, with outages, interleaved with edits by others (pkg/nfd-master/nfd-master.go,
 `updateNodeObject` and `prune`). The master keeps no memory: what it owns is only what it reads back from
 the node.
 */
module NodeHistory {
  import opened Strings
  import opened JsonPatch
  import opened NodePatches
  import opened NodeUpdate
  import opened NodeRuns
  import opened NodeEdits

  /** An update may find the node edited since it was read (`amid`). */
  datatype Event =
    | Update(d: Desired, statusOutage: bool, metaOutage: bool, amid: Edit)
    | Foreign(edit: Edit)

  /**
   Keys tracked at the start or desired by an update since, for resources by one whose status request
   got through and for the others by one that succeeded.
   */
  datatype Owned = Owned(labels: set<string>, annotations: set<string>, resources: set<string>)

  /**
   A node, what the master has owned on it so far, and the same node had the master never run. `last` is
   what the last successful update desired and `status` the resources of the last one whose status
   request got through, `placed` their keys; `leaked` are resources that were put on the node, never
   tracked, and not desired by the next update.
   */
  datatype State = State(node: Node, owned: Owned, world: Node, last: Option<Desired>, status: Option<Items>,
    placed: set<string>, leaked: set<string>)

  ghost function Tracked(cfg: Config, node: Node): set<string> {
    Elems(TrackedResources(cfg, node))
  }

  ghost function Start(cfg: Config, node: Node): State {
    State(node, Owned(Elems(TrackedLabels(cfg, node)), OwnedAnnotations(cfg, node), Tracked(cfg, node)), node,
      None, None, Tracked(cfg, node), {})
  }

  /** The edit stays off these keys. */
  ghost predicate Avoids(edit: Edit, owned: Owned) {
    && edit.labels.Touched() !! owned.labels && edit.annotations.Touched() !! owned.annotations
    && edit.capacity.Touched() !! owned.resources && edit.allocatable.Touched() !! owned.resources
  }

  function Desires(d: Desired): Owned {
    Owned(d.labels.Keys, d.annotations.Keys, d.resources.Keys)
  }

  /**
   Updates are valid; others stay away from what the master has owned so far and, while an update is
   under way, from what it desires.
   */
  ghost predicate Enabled(cfg: Config, s: State, e: Event) {
    match e
    case Update(d, _, _, amid) =>
      ValidDesired(cfg, d) && amid.Valid() && Avoids(amid, s.owned) && Avoids(amid, Desires(d))
    case Foreign(edit) => edit.Valid() && Avoids(edit, s.owned)
  }

  /** The status request of an update computed from `snap` gets through at the stored node `cur`. */
  ghost predicate GetsThrough(cfg: Config, snap: Node, d: Desired, cur: Node, statusOutage: bool) {
    StatusIdle(cfg, snap, d) || (!statusOutage && StatusFits(cfg, snap, d, cur))
  }

  ghost predicate Through(cfg: Config, node: Node, d: Desired, statusOutage: bool) {
    GetsThrough(cfg, node, d, node, statusOutage)
  }

  /** The state after an update that ended so. */
  ghost function Noted(cfg: Config, s: State, d: Desired, through: bool, o: Outcome): State {
    var wanted := d.resources.Keys;
    if !through then s.(node := o.node)
    else
      var t := s.(node := o.node, owned := s.owned.(resources := s.owned.resources + wanted),
        status := Some(d.resources), placed := wanted,
        leaked := s.leaked + (s.placed - Tracked(cfg, s.node)) - wanted);
      if !o.ok then t
      else t.(last := Some(d), owned := t.owned.(
        labels := s.owned.labels + d.labels.Keys, annotations := s.owned.annotations + d.annotations.Keys))
  }

  /** An update that nobody interferes with. */
  ghost function AfterUpdate(cfg: Config, s: State, d: Desired, statusOutage: bool, metaOutage: bool): State {
    Noted(cfg, s, d, Through(cfg, s.node, d, statusOutage),
      UpdateOutcome(cfg, s.node, d, s.node, statusOutage, metaOutage))
  }

  ghost function Edited(s: State, edit: Edit): State {
    s.(node := edit.On(s.node), world := edit.On(s.world))
  }

  /** How an update ends that was computed from the node as it was read. */
  ghost function Ending(cfg: Config, s: State, e: Event): Outcome
    requires e.Update?
  {
    UpdateOutcome(cfg, s.node, e.d, e.amid.On(s.node), e.statusOutage, e.metaOutage)
  }

  ghost predicate Reaches(cfg: Config, s: State, e: Event)
    requires e.Update?
  {
    GetsThrough(cfg, s.node, e.d, e.amid.On(s.node), e.statusOutage)
  }

  ghost function Next(cfg: Config, s: State, e: Event): State {
    match e
    case Update(d, _, _, amid) =>
      Noted(cfg, s, d, Reaches(cfg, s, e), Ending(cfg, s, e)).(world := amid.On(s.world))
    case Foreign(edit) => Edited(s, edit)
  }

  ghost predicate Possible(cfg: Config, s: State, es: seq<Event>)
    decreases |es|
  {
    es == [] || (Enabled(cfg, s, es[0]) && Possible(cfg, Next(cfg, s, es[0]), es[1..]))
  }

  ghost function Run(cfg: Config, s: State, es: seq<Event>): State
    decreases |es|
  {
    if es == [] then s else Run(cfg, Next(cfg, s, es[0]), es[1..])
  }

  /** A refused status request ends an update without effect. */
  lemma UpdateRefused(cfg: Config, node: Node, d: Desired, statusOutage: bool, metaOutage: bool)
    requires !Through(cfg, node, d, statusOutage)
    ensures UpdateOutcome(cfg, node, d, node, statusOutage, metaOutage) == Outcome(false, node)
  {
  }

  /** A failed metadata request leaves the node as the status request made it. */
  lemma UpdateHalfDone(cfg: Config, node: Node, d: Desired, statusOutage: bool, metaOutage: bool)
    requires Through(cfg, node, d, statusOutage) && !UpdateOutcome(cfg, node, d, node, statusOutage, metaOutage).ok
    ensures var mid := StatusDone(cfg, node, d, node);
      && UpdateOutcome(cfg, node, d, node, statusOutage, metaOutage).node == mid
      && mid.labels == node.labels && mid.annotations == node.annotations
  {
    StatusKeepsMeta(cfg, node, d, node);
  }

  lemma UpdateSucceeds(cfg: Config, node: Node, d: Desired, statusOutage: bool, metaOutage: bool)
    requires UpdateOutcome(cfg, node, d, node, statusOutage, metaOutage).ok
    ensures var o, mid := UpdateOutcome(cfg, node, d, node, statusOutage, metaOutage), StatusDone(cfg, node, d, node);
      && Through(cfg, node, d, statusOutage) && Updated(cfg, node, d) == Some(o.node)
      && o.node.capacity == mid.capacity && o.node.allocatable == mid.allocatable
  {
    UpdateSteps(cfg, node, d);
  }

  /** What an update leaves at each of its three ends. */
  lemma UpdateEnds(cfg: Config, node: Node, d: Desired, statusOutage: bool, metaOutage: bool)
    ensures var o, mid := UpdateOutcome(cfg, node, d, node, statusOutage, metaOutage), StatusDone(cfg, node, d, node);
      && (!Through(cfg, node, d, statusOutage) ==> o == Outcome(false, node))
      && (Through(cfg, node, d, statusOutage) && !o.ok ==>
        o.node.labels == node.labels && o.node.annotations == node.annotations)
      && (Through(cfg, node, d, statusOutage) ==>
        o.node.capacity == mid.capacity && o.node.allocatable == mid.allocatable)
      && (o.ok ==> Through(cfg, node, d, statusOutage) && Updated(cfg, node, d) == Some(o.node))
  {
    if UpdateOutcome(cfg, node, d, node, statusOutage, metaOutage).ok {
      UpdateSucceeds(cfg, node, d, statusOutage, metaOutage);
    } else if Through(cfg, node, d, statusOutage) {
      UpdateHalfDone(cfg, node, d, statusOutage, metaOutage);
    } else {
      UpdateRefused(cfg, node, d, statusOutage, metaOutage);
    }
  }

  lemma AfterUpdateNode(cfg: Config, s: State, d: Desired, statusOutage: bool, metaOutage: bool)
    ensures AfterUpdate(cfg, s, d, statusOutage, metaOutage).node ==
      UpdateOutcome(cfg, s.node, d, s.node, statusOutage, metaOutage).node
  {
    if !Through(cfg, s.node, d, statusOutage) {
      UpdateRefused(cfg, s.node, d, statusOutage, metaOutage);
    }
  }

  // ---- Labels and annotations ----

  ghost predicate LabelsInv(cfg: Config, s: State) {
    var tracked := Elems(TrackedLabels(cfg, s.node));
    tracked <= s.owned.labels && Minus(s.node.labels, tracked) == Minus(s.world.labels, s.owned.labels)
  }

  ghost predicate AnnotationsInv(cfg: Config, s: State) {
    var tracked := OwnedAnnotations(cfg, s.node);
    tracked <= s.owned.annotations
      && Minus(s.node.annotations, tracked) == Minus(s.world.annotations, s.owned.annotations)
  }

  /** The metadata is what the last successful update made it, around what others have. */
  ghost predicate LastInv(cfg: Config, s: State) {
    s.last.Some? ==>
      && Tracks(cfg, s.node, s.last.value)
      && s.node.labels == Minus(s.world.labels, s.owned.labels) + s.last.value.labels
      && s.node.annotations == Minus(s.world.annotations, s.owned.annotations) + WantedAnnotations(cfg, s.last.value)
  }

  /** One map through an update: tracked keys out, wanted items in. */
  lemma MapStep(have: Items, tracked: set<string>, world: Items, owned: set<string>, want: Items, keys: set<string>)
    requires Minus(have, tracked) == Minus(world, owned) && want.Keys <= keys
    ensures var after := Minus(have, tracked) + want;
      && Minus(after, keys) == Minus(world, owned + keys)
      && (keys == want.Keys ==> after == Minus(world, owned + keys) + want)
  {
  }

  lemma UpdatedLabels(cfg: Config, node: Node, d: Desired, after: Node)
    requires ValidConfig(cfg) && cfg.allowOverwrite && ValidDesired(cfg, d) && Updated(cfg, node, d) == Some(after)
    ensures after.labels == Minus(node.labels, Elems(TrackedLabels(cfg, node))) + d.labels
    ensures Elems(TrackedLabels(cfg, after)) == d.labels.Keys
  {
    UpdatedMeta(cfg, node, d);
    UpdatedTracks(cfg, node, d);
    ElemsOf(TrackedLabels(cfg, after), d.labels.Keys);
  }

  lemma UpdatedAnnotations(cfg: Config, node: Node, d: Desired, after: Node)
    requires ValidConfig(cfg) && cfg.allowOverwrite && ValidDesired(cfg, d) && Updated(cfg, node, d) == Some(after)
    ensures after.annotations == Minus(node.annotations, OwnedAnnotations(cfg, node)) + WantedAnnotations(cfg, d)
    ensures OwnedAnnotations(cfg, after) == d.annotations.Keys + cfg.Reserved()
  {
    UpdatedMeta(cfg, node, d);
    UpdatedTracks(cfg, node, d);
    ElemsOf(TrackedAnnotations(cfg, after), d.annotations.Keys);
  }

  lemma UpdateKeepsLabels(cfg: Config, s: State, d: Desired, after: Node)
    requires ValidConfig(cfg) && cfg.allowOverwrite && LabelsInv(cfg, s) && ValidDesired(cfg, d)
    requires Updated(cfg, s.node, d) == Some(after)
    ensures var owned := s.owned.labels + d.labels.Keys;
      && after.labels == Minus(s.world.labels, owned) + d.labels
      && Elems(TrackedLabels(cfg, after)) == d.labels.Keys
      && Minus(after.labels, d.labels.Keys) == Minus(s.world.labels, owned)
  {
    UpdatedLabels(cfg, s.node, d, after);
    MapStep(s.node.labels, Elems(TrackedLabels(cfg, s.node)), s.world.labels, s.owned.labels, d.labels, d.labels.Keys);
  }

  lemma WantedKeys(cfg: Config, d: Desired)
    ensures d.annotations.Keys <= WantedAnnotations(cfg, d).Keys <= d.annotations.Keys + cfg.Reserved()
  {
    forall k ensures k in WantedAnnotations(cfg, d) ==> k in d.annotations.Keys + cfg.Reserved()
      ensures k in d.annotations ==> k in WantedAnnotations(cfg, d)
    {
      WantedAt(cfg, d, k);
    }
  }

  /** `MapStep` when some wanted keys are reserved ones, owned from the start. */
  lemma MapStepReserved(have: Items, tracked: set<string>, world: Items, owned: set<string>, want: Items,
      keys: set<string>, reserved: set<string>)
    requires Minus(have, tracked) == Minus(world, owned) && reserved <= owned
    requires keys <= want.Keys <= keys + reserved
    ensures var after := Minus(have, tracked) + want;
      && Minus(after, keys + reserved) == Minus(world, owned + keys)
      && after == Minus(world, owned + keys) + want
  {
    MapStep(have, tracked, world, owned, want, keys + reserved);
    MapStep(have, tracked, world, owned, want, want.Keys);
    assert owned + (keys + reserved) == owned + keys == owned + want.Keys;
  }

  lemma UpdateKeepsAnnotations(cfg: Config, s: State, d: Desired, after: Node)
    requires ValidConfig(cfg) && cfg.allowOverwrite && AnnotationsInv(cfg, s) && ValidDesired(cfg, d)
    requires Updated(cfg, s.node, d) == Some(after)
    ensures var owned := s.owned.annotations + d.annotations.Keys;
      && after.annotations == Minus(s.world.annotations, owned) + WantedAnnotations(cfg, d)
      && OwnedAnnotations(cfg, after) == d.annotations.Keys + cfg.Reserved()
      && Minus(after.annotations, d.annotations.Keys + cfg.Reserved()) == Minus(s.world.annotations, owned)
  {
    UpdatedAnnotations(cfg, s.node, d, after);
    WantedKeys(cfg, d);
    MapStepReserved(s.node.annotations, OwnedAnnotations(cfg, s.node), s.world.annotations, s.owned.annotations,
      WantedAnnotations(cfg, d), d.annotations.Keys, cfg.Reserved());
  }

  ghost predicate MetaInv(cfg: Config, s: State) {
    LabelsInv(cfg, s) && AnnotationsInv(cfg, s) && LastInv(cfg, s)
  }

  /** A successful update takes the metadata to what it desires. */
  lemma SuccessKeepsMeta(cfg: Config, s: State, d: Desired, t: State)
    requires ValidConfig(cfg) && cfg.allowOverwrite && MetaInv(cfg, s) && ValidDesired(cfg, d)
    requires Updated(cfg, s.node, d) == Some(t.node) && t.world == s.world && t.last == Some(d)
    requires t.owned.labels == s.owned.labels + d.labels.Keys
      && t.owned.annotations == s.owned.annotations + d.annotations.Keys
    ensures MetaInv(cfg, t)
  {
    UpdateKeepsLabels(cfg, s, d, t.node);
    UpdateKeepsAnnotations(cfg, s, d, t.node);
    UpdatedTracks(cfg, s.node, d);
    assert cfg.Reserved() <= OwnedAnnotations(cfg, s.node);
  }

  /** An update that stops half-way or before leaves it alone. */
  lemma SameMeta(cfg: Config, s: State, t: State)
    requires MetaInv(cfg, s) && t.node.labels == s.node.labels && t.node.annotations == s.node.annotations
    requires t.world == s.world && t.last == s.last && t.owned.labels == s.owned.labels
      && t.owned.annotations == s.owned.annotations
    ensures MetaInv(cfg, t)
  {
  }

  // ---- Resources ----

  /**
   Outside what was placed and leaked the capacity is the world's less what was owned; leaked resources
   are on the node and not tracked.
   */
  ghost predicate ResourcesInv(cfg: Config, s: State) {
    var tracked := Tracked(cfg, s.node);
    && tracked + s.placed + s.leaked <= s.owned.resources
    && s.leaked !! tracked && s.leaked !! s.placed
    && s.leaked + (s.placed - tracked) <= s.node.capacity.Keys
    && Minus(s.node.capacity, s.placed + s.leaked) == Minus(s.world.capacity, s.owned.resources)
  }

  /** Tracked resources that are allocatable have a capacity. */
  ghost predicate Paired(cfg: Config, node: Node) {
    forall k :: k in Tracked(cfg, node) && k in node.allocatable ==> k in node.capacity
  }

  ghost predicate AllocatableInv(cfg: Config, s: State) {
    Paired(cfg, s.node)
      && Minus(s.node.allocatable, s.placed + s.leaked) == Minus(s.world.allocatable, s.owned.resources)
  }

  /** What the last status request placed is still there. */
  ghost predicate StatusInv(cfg: Config, s: State) {
    s.status.Some? ==>
      && s.placed == s.status.value.Keys
      && forall k :: k in s.status.value ==> ResourceMet(cfg.asInt, s.node.capacity, k, s.status.value[k])
  }

  /** One map of the status through an update. */
  lemma ResourceStep(have: Items, after: Items, tracked: set<string>, placed: set<string>, leaked: set<string>,
      world: Items, owned: set<string>, want: set<string>)
    requires Minus(have, placed + leaked) == Minus(world, owned) && tracked <= owned
    requires forall k :: k !in want ==> (k in after <==> k in have && k !in tracked)
    requires forall k :: k !in want && k in after && k in have ==> after[k] == have[k]
    ensures Minus(after, want + (leaked + (placed - tracked) - want)) == Minus(world, owned + want)
  {
    var a, b := Minus(after, want + (leaked + (placed - tracked) - want)), Minus(world, owned + want);
    var p, q := Minus(have, placed + leaked), Minus(world, owned);
    forall k ensures (k in a <==> k in b) && (k in a ==> a[k] == b[k]) {
      assert (k in p <==> k in q) && (k in p ==> p[k] == q[k]);
    }
  }

  lemma CapacityKeys(cfg: Config, node: Node, d: Desired, after: Items)
    requires after == StatusDone(cfg, node, d, node).capacity
    ensures forall k :: k in d.resources ==> ResourceMet(cfg.asInt, after, k, d.resources[k])
    ensures forall k :: k !in d.resources ==> (k in after <==> k in node.capacity && k !in Tracked(cfg, node))
    ensures forall k :: k !in d.resources && k in after && k in node.capacity ==> after[k] == node.capacity[k]
  {
    forall k
      ensures k in d.resources ==> ResourceMet(cfg.asInt, after, k, d.resources[k])
      ensures k !in d.resources ==> (k in after <==> k in node.capacity && k !in Tracked(cfg, node))
      ensures k !in d.resources && k in after && k in node.capacity ==> after[k] == node.capacity[k]
    {
      StatusCapacity(cfg, node, d, k);
    }
  }

  lemma StatusKeepsCapacity(cfg: Config, s: State, d: Desired, after: Node)
    requires ResourcesInv(cfg, s) && after.capacity == StatusDone(cfg, s.node, d, s.node).capacity
    ensures var want, tracked := d.resources.Keys, Tracked(cfg, s.node);
      && Minus(after.capacity, want + (s.leaked + (s.placed - tracked) - want)) ==
        Minus(s.world.capacity, s.owned.resources + want)
      && s.leaked + (s.placed - tracked) + want <= after.capacity.Keys
    ensures forall k :: k in d.resources ==> ResourceMet(cfg.asInt, after.capacity, k, d.resources[k])
  {
    CapacityKeys(cfg, s.node, d, after.capacity);
    ResourceStep(s.node.capacity, after.capacity, Tracked(cfg, s.node), s.placed, s.leaked, s.world.capacity,
      s.owned.resources, d.resources.Keys);
  }

  lemma StatusKeepsAllocatable(cfg: Config, s: State, d: Desired, after: Node)
    requires ResourcesInv(cfg, s) && AllocatableInv(cfg, s)
    requires after.allocatable == StatusDone(cfg, s.node, d, s.node).allocatable
    ensures var want, tracked := d.resources.Keys, Tracked(cfg, s.node);
      Minus(after.allocatable, want + (s.leaked + (s.placed - tracked) - want)) ==
        Minus(s.world.allocatable, s.owned.resources + want)
    ensures forall k :: k in Tracked(cfg, s.node) && k in after.allocatable ==> k in d.resources
  {
    forall k
      ensures k !in d.resources ==>
        (k in after.allocatable <==> k in s.node.allocatable && k !in Tracked(cfg, s.node))
      ensures k !in d.resources && k in after.allocatable && k in s.node.allocatable ==>
        after.allocatable[k] == s.node.allocatable[k]
    {
      StatusAllocatable(cfg, s.node, d, k);
    }
    ResourceStep(s.node.allocatable, after.allocatable, Tracked(cfg, s.node), s.placed, s.leaked, s.world.allocatable,
      s.owned.resources, d.resources.Keys);
  }

  lemma TracksSame(cfg: Config, a: Node, b: Node)
    requires a.annotations == b.annotations
    ensures Tracked(cfg, a) == Tracked(cfg, b)
  {
  }

  lemma SuccessTracks(cfg: Config, node: Node, d: Desired, after: Node)
    requires ValidConfig(cfg) && cfg.allowOverwrite && ValidDesired(cfg, d) && Updated(cfg, node, d) == Some(after)
    ensures Tracked(cfg, after) == d.resources.Keys
  {
    UpdatedTracks(cfg, node, d);
    ElemsOf(TrackedResources(cfg, after), d.resources.Keys);
  }

  // ---- Steps ----

  ghost predicate Inv(cfg: Config, s: State) {
    MetaInv(cfg, s) && ResourcesInv(cfg, s) && StatusInv(cfg, s)
  }

  lemma UpdateKeepsMeta(cfg: Config, s: State, d: Desired, statusOutage: bool, metaOutage: bool)
    requires ValidConfig(cfg) && cfg.allowOverwrite && MetaInv(cfg, s) && ValidDesired(cfg, d)
    ensures MetaInv(cfg, AfterUpdate(cfg, s, d, statusOutage, metaOutage))
  {
    var t := AfterUpdate(cfg, s, d, statusOutage, metaOutage);
    UpdateEnds(cfg, s.node, d, statusOutage, metaOutage);
    if UpdateOutcome(cfg, s.node, d, s.node, statusOutage, metaOutage).ok {
      SuccessKeepsMeta(cfg, s, d, t);
    } else {
      SameMeta(cfg, s, t);
    }
  }

  /** Tracked resources after an update whose status request got through. */
  lemma TrackedAfter(cfg: Config, s: State, d: Desired, statusOutage: bool, metaOutage: bool)
    requires ValidConfig(cfg) && cfg.allowOverwrite && ValidDesired(cfg, d) && Through(cfg, s.node, d, statusOutage)
    ensures var o := UpdateOutcome(cfg, s.node, d, s.node, statusOutage, metaOutage);
      Tracked(cfg, o.node) == if o.ok then d.resources.Keys else Tracked(cfg, s.node)
  {
    var o := UpdateOutcome(cfg, s.node, d, s.node, statusOutage, metaOutage);
    UpdateEnds(cfg, s.node, d, statusOutage, metaOutage);
    if o.ok {
      SuccessTracks(cfg, s.node, d, o.node);
    } else {
      TracksSame(cfg, o.node, s.node);
    }
  }

  /** The sets of resource keys through an update; `now` are the keys tracked afterwards. */
  lemma KeysStep(tracked: set<string>, now: set<string>, placed: set<string>, leaked: set<string>, owned: set<string>,
      want: set<string>)
    requires leaked !! tracked && (now == want || now == tracked) && tracked + placed + leaked <= owned
    ensures var left := leaked + (placed - tracked) - want;
      && now + want + left <= owned + want && left !! now && left !! want
      && left + (want - now) <= leaked + (placed - tracked) + want
  {
  }

  lemma UpdateKeepsResources(cfg: Config, s: State, d: Desired, statusOutage: bool, metaOutage: bool)
    requires ValidConfig(cfg) && cfg.allowOverwrite && ResourcesInv(cfg, s) && StatusInv(cfg, s) && ValidDesired(cfg, d)
    ensures var t := AfterUpdate(cfg, s, d, statusOutage, metaOutage); ResourcesInv(cfg, t) && StatusInv(cfg, t)
  {
    var t := AfterUpdate(cfg, s, d, statusOutage, metaOutage);
    if Through(cfg, s.node, d, statusOutage) {
      UpdateEnds(cfg, s.node, d, statusOutage, metaOutage);
      TrackedAfter(cfg, s, d, statusOutage, metaOutage);
      StatusKeepsCapacity(cfg, s, d, t.node);
      KeysStep(Tracked(cfg, s.node), Tracked(cfg, t.node), s.placed, s.leaked, s.owned.resources, d.resources.Keys);
    }
  }

  lemma UpdateKeepsAllocatable(cfg: Config, s: State, d: Desired, statusOutage: bool, metaOutage: bool)
    requires ValidConfig(cfg) && cfg.allowOverwrite && ResourcesInv(cfg, s) && AllocatableInv(cfg, s)
      && ValidDesired(cfg, d)
    ensures AllocatableInv(cfg, AfterUpdate(cfg, s, d, statusOutage, metaOutage))
  {
    var t := AfterUpdate(cfg, s, d, statusOutage, metaOutage);
    if Through(cfg, s.node, d, statusOutage) {
      UpdateEnds(cfg, s.node, d, statusOutage, metaOutage);
      TrackedAfter(cfg, s, d, statusOutage, metaOutage);
      StatusKeepsCapacity(cfg, s, d, t.node);
      StatusKeepsAllocatable(cfg, s, d, t.node);
    }
  }

  lemma ChangeStep(c: Change, have: Items, tracked: set<string>, world: Items, owned: set<string>)
    requires Minus(have, tracked) == Minus(world, owned) && tracked <= owned && c.Touched() !! owned
    ensures Minus(c.On(have), tracked) == Minus(c.On(world), owned)
    ensures forall k :: k in owned ==> Value(c.On(have), k) == Value(have, k)
  {
    var m, n := Minus(c.On(have), tracked), Minus(c.On(world), owned);
    var p, q := Minus(have, tracked), Minus(world, owned);
    forall k ensures (k in m <==> k in n) && (k in m ==> m[k] == n[k]) {
      assert (k in p <==> k in q) && (k in p ==> p[k] == q[k]);
      assert k in c.Touched() ==> k !in owned;
    }
  }

  /** Edits by others keep the tracking annotations, hence what the master believes it owns. */
  lemma ForeignKeepsTracking(cfg: Config, s: State, edit: Edit)
    requires Avoids(edit, s.owned) && AnnotationsInv(cfg, s)
    ensures var node := edit.On(s.node);
      && TrackedLabels(cfg, node) == TrackedLabels(cfg, s.node)
      && TrackedResources(cfg, node) == TrackedResources(cfg, s.node)
      && TrackedAnnotations(cfg, node) == TrackedAnnotations(cfg, s.node)
  {
    ChangeStep(edit.annotations, s.node.annotations, OwnedAnnotations(cfg, s.node), s.world.annotations,
      s.owned.annotations);
    assert cfg.Reserved() <= s.owned.annotations;
    assert cfg.labelsKey in cfg.Reserved() && cfg.resourcesKey in cfg.Reserved()
      && cfg.annotationsKey in cfg.Reserved();
  }

  /** An edit of keys that are not owned goes around what is wanted. */
  lemma ChangeAround(c: Change, world: Items, owned: set<string>, want: Items)
    requires c.Touched() !! owned && want.Keys <= owned
    ensures c.On(Minus(world, owned) + want) == Minus(c.On(world), owned) + want
  {
    var a, b := c.On(Minus(world, owned) + want), Minus(c.On(world), owned) + want;
    forall k ensures (k in a <==> k in b) && (k in a ==> a[k] == b[k]) {
      assert k in c.Touched() ==> k !in owned;
    }
  }

  lemma LastIsOwned(cfg: Config, s: State)
    requires MetaInv(cfg, s) && s.last.Some?
    ensures s.last.value.labels.Keys <= s.owned.labels
    ensures WantedAnnotations(cfg, s.last.value).Keys <= s.owned.annotations
  {
    var d := s.last.value;
    WantedKeys(cfg, d);
    ElemsOf(TrackedLabels(cfg, s.node), d.labels.Keys);
    ElemsOf(TrackedAnnotations(cfg, s.node), d.annotations.Keys);
  }

  lemma ForeignKeepsMeta(cfg: Config, s: State, edit: Edit)
    requires Avoids(edit, s.owned) && MetaInv(cfg, s)
    ensures MetaInv(cfg, Edited(s, edit))
  {
    ForeignKeepsTracking(cfg, s, edit);
    ChangeStep(edit.labels, s.node.labels, Elems(TrackedLabels(cfg, s.node)), s.world.labels, s.owned.labels);
    ChangeStep(edit.annotations, s.node.annotations, OwnedAnnotations(cfg, s.node), s.world.annotations,
      s.owned.annotations);
    if s.last.Some? {
      LastIsOwned(cfg, s);
      ChangeAround(edit.labels, s.world.labels, s.owned.labels, s.last.value.labels);
      ChangeAround(edit.annotations, s.world.annotations, s.owned.annotations, WantedAnnotations(cfg, s.last.value));
    }
  }

  lemma ChangeKeepsOwned(c: Change, m: Items, owned: set<string>)
    requires c.Touched() !! owned
    ensures forall k :: k in owned ==> (k in c.On(m) <==> k in m) && (k in m ==> c.On(m)[k] == m[k])
  {
    forall k | k in owned ensures (k in c.On(m) <==> k in m) && (k in m ==> c.On(m)[k] == m[k]) {
      assert k !in c.Touched();
    }
  }

  lemma ForeignKeepsResources(cfg: Config, s: State, edit: Edit)
    requires Avoids(edit, s.owned) && MetaInv(cfg, s) && ResourcesInv(cfg, s) && StatusInv(cfg, s)
    ensures ResourcesInv(cfg, Edited(s, edit)) && StatusInv(cfg, Edited(s, edit))
  {
    ForeignKeepsTracking(cfg, s, edit);
    ChangeStep(edit.capacity, s.node.capacity, s.placed + s.leaked, s.world.capacity, s.owned.resources);
    ChangeKeepsOwned(edit.capacity, s.node.capacity, s.owned.resources);
  }

  lemma ForeignKeepsAllocatable(cfg: Config, s: State, edit: Edit)
    requires Avoids(edit, s.owned) && MetaInv(cfg, s) && ResourcesInv(cfg, s) && AllocatableInv(cfg, s)
    ensures AllocatableInv(cfg, Edited(s, edit))
  {
    ForeignKeepsTracking(cfg, s, edit);
    ChangeStep(edit.allocatable, s.node.allocatable, s.placed + s.leaked, s.world.allocatable, s.owned.resources);
    ChangeKeepsOwned(edit.capacity, s.node.capacity, s.owned.resources);
    ChangeKeepsOwned(edit.allocatable, s.node.allocatable, s.owned.resources);
  }

  // ---- Edits amid an update ----

  lemma EditIsClear(cfg: Config, s: State, d: Desired, amid: Edit)
    requires LabelsInv(cfg, s) && AnnotationsInv(cfg, s) && ResourcesInv(cfg, s)
    requires Avoids(amid, s.owned) && Avoids(amid, Desires(d))
    ensures Clear(cfg, s.node, d, amid)
  {
    WantedKeys(cfg, d);
    assert cfg.Reserved() <= s.owned.annotations;
  }

  /** An update amid which others edit the node leads to the same state as one before their edit. */
  lemma NextUpdate(cfg: Config, s: State, e: Event)
    requires e.Update? && Inv(cfg, s) && Enabled(cfg, s, e)
    ensures Next(cfg, s, e) == Edited(AfterUpdate(cfg, s, e.d, e.statusOutage, e.metaOutage), e.amid)
    ensures Reaches(cfg, s, e) <==> Through(cfg, s.node, e.d, e.statusOutage)
    ensures Ending(cfg, s, e).ok == UpdateOutcome(cfg, s.node, e.d, s.node, e.statusOutage, e.metaOutage).ok
  {
    EditIsClear(cfg, s, e.d, e.amid);
    UpdateCommutes(cfg, s.node, e.d, e.amid, e.statusOutage, e.metaOutage);
    StatusFitsEdited(cfg, s.node, e.d, e.amid);
  }

  lemma AfterUpdateAvoided(cfg: Config, s: State, d: Desired, statusOutage: bool, metaOutage: bool, amid: Edit)
    requires Avoids(amid, s.owned) && Avoids(amid, Desires(d))
    ensures Avoids(amid, AfterUpdate(cfg, s, d, statusOutage, metaOutage).owned)
  {
  }

  // ---- The theorems ----

  lemma AfterUpdateInv(cfg: Config, s: State, d: Desired, statusOutage: bool, metaOutage: bool)
    requires ValidConfig(cfg) && cfg.allowOverwrite && Inv(cfg, s) && ValidDesired(cfg, d)
    ensures Inv(cfg, AfterUpdate(cfg, s, d, statusOutage, metaOutage))
    ensures AllocatableInv(cfg, s) ==> AllocatableInv(cfg, AfterUpdate(cfg, s, d, statusOutage, metaOutage))
  {
    UpdateKeepsMeta(cfg, s, d, statusOutage, metaOutage);
    UpdateKeepsResources(cfg, s, d, statusOutage, metaOutage);
    if AllocatableInv(cfg, s) { UpdateKeepsAllocatable(cfg, s, d, statusOutage, metaOutage); }
  }

  lemma EditedInv(cfg: Config, s: State, edit: Edit)
    requires Inv(cfg, s) && Avoids(edit, s.owned)
    ensures Inv(cfg, Edited(s, edit))
    ensures AllocatableInv(cfg, s) ==> AllocatableInv(cfg, Edited(s, edit))
  {
    ForeignKeepsMeta(cfg, s, edit);
    ForeignKeepsResources(cfg, s, edit);
    if AllocatableInv(cfg, s) { ForeignKeepsAllocatable(cfg, s, edit); }
  }

  lemma StepKeepsInv(cfg: Config, s: State, e: Event)
    requires ValidConfig(cfg) && cfg.allowOverwrite && Inv(cfg, s) && Enabled(cfg, s, e)
    ensures Inv(cfg, Next(cfg, s, e))
    ensures AllocatableInv(cfg, s) ==> AllocatableInv(cfg, Next(cfg, s, e))
  {
    match e {
      case Update(d, statusOutage, metaOutage, amid) =>
        NextUpdate(cfg, s, e);
        AfterUpdateInv(cfg, s, d, statusOutage, metaOutage);
        AfterUpdateAvoided(cfg, s, d, statusOutage, metaOutage, amid);
        EditedInv(cfg, AfterUpdate(cfg, s, d, statusOutage, metaOutage), amid);
      case Foreign(edit) =>
        EditedInv(cfg, s, edit);
    }
  }

  lemma {:induction false} RunKeepsInv(cfg: Config, s: State, es: seq<Event>)
    requires ValidConfig(cfg) && cfg.allowOverwrite && Inv(cfg, s) && Possible(cfg, s, es)
    ensures Inv(cfg, Run(cfg, s, es))
    ensures AllocatableInv(cfg, s) ==> AllocatableInv(cfg, Run(cfg, s, es))
    decreases |es|
  {
    if es != [] {
      StepKeepsInv(cfg, s, es[0]);
      RunKeepsInv(cfg, Next(cfg, s, es[0]), es[1..]);
    }
  }

  lemma StartInv(cfg: Config, node: Node)
    ensures Inv(cfg, Start(cfg, node))
    ensures Paired(cfg, node) ==> AllocatableInv(cfg, Start(cfg, node))
  {
    var s := Start(cfg, node);
    assert s.placed + s.leaked == s.placed;
  }

  /** The item has the value desired, or else the world's unless it was owned. */
  ghost predicate MetAt(have: Items, want: Items, world: Items, owned: set<string>, k: string) {
    if k in want then k in have && have[k] == want[k]
    else if k in owned then k !in have
    else SameAt(have, world, k)
  }

  /** Labels and annotations, item by item; what the tracking annotations say is stated by `Tracks`. */
  ghost predicate MetaMet(cfg: Config, s: State, d: Desired, k: string) {
    && MetAt(s.node.labels, d.labels, s.world.labels, s.owned.labels, k)
    && (k !in {cfg.labelsKey, cfg.resourcesKey, cfg.annotationsKey} || k in d.annotations ==>
      MetAt(s.node.annotations, d.annotations, s.world.annotations, s.owned.annotations, k))
  }

  lemma MetFrom(have: Items, wanted: Items, want: Items, world: Items, owned: set<string>, k: string)
    requires have == Minus(world, owned) + wanted && SameAt(wanted, want, k)
    ensures MetAt(have, want, world, owned, k)
  {
  }

  lemma LastValues(cfg: Config, s: State, k: string)
    requires LastInv(cfg, s) && s.last.Some?
    ensures MetaMet(cfg, s, s.last.value, k)
  {
    var d := s.last.value;
    MetFrom(s.node.labels, d.labels, d.labels, s.world.labels, s.owned.labels, k);
    WantedValues(cfg, d, k);
    if k !in {cfg.labelsKey, cfg.resourcesKey, cfg.annotationsKey} || k in d.annotations {
      MetFrom(s.node.annotations, WantedAnnotations(cfg, d), d.annotations, s.world.annotations, s.owned.annotations,
        k);
    }
  }

  /**
   The node of a state. Its metadata is what it would be without the master, less every key the master
   ever owned, plus what the last successful update desired, and the tracking annotations decode to
   exactly those keys. So is its capacity for the last update whose status request got through, but for
   the leaked resources, and its allocatable amounts are the world's outside those keys.
   */
  ghost predicate Reconciled(cfg: Config, s: State) {
    && LastInv(cfg, s)
    && (s.last.Some? ==> forall k :: MetaMet(cfg, s, s.last.value, k))
    && (s.status.Some? ==>
      && Minus(s.node.capacity, s.status.value.Keys + s.leaked) == Minus(s.world.capacity, s.owned.resources)
      && s.leaked <= s.node.capacity.Keys && s.leaked !! s.status.value.Keys
      && forall k :: k in s.status.value ==> ResourceMet(cfg.asInt, s.node.capacity, k, s.status.value[k]))
  }

  /** Every state of every run is reconciled, whatever requests failed on the way. */
  lemma RunReconciles(cfg: Config, node: Node, es: seq<Event>)
    requires ValidConfig(cfg) && cfg.allowOverwrite && Possible(cfg, Start(cfg, node), es)
    ensures var s := Run(cfg, Start(cfg, node), es);
      && Reconciled(cfg, s)
      && (Paired(cfg, node) ==>
        Minus(s.node.allocatable, s.placed + s.leaked) == Minus(s.world.allocatable, s.owned.resources))
  {
    var s := Run(cfg, Start(cfg, node), es);
    StartInv(cfg, node);
    RunKeepsInv(cfg, Start(cfg, node), es);
    forall k | s.last.Some? ensures MetaMet(cfg, s, s.last.value, k) {
      LastValues(cfg, s, k);
    }
  }

  /** The capacity is the world's plus what is desired exactly when nothing has leaked. */
  lemma ResourcesReconciledExactly(cfg: Config, s: State)
    requires Inv(cfg, s) && s.status.Some?
    ensures Minus(s.node.capacity, s.status.value.Keys) == Minus(s.world.capacity, s.owned.resources) <==>
      s.leaked == {}
  {
    if s.leaked == {} {
      assert s.placed + s.leaked == s.placed;
    } else {
      var k :| k in s.leaked;
      assert k in Minus(s.node.capacity, s.placed);
      assert k !in Minus(s.world.capacity, s.owned.resources);
    }
  }

  /**
   An update leaves a resource behind exactly when it does not desire it and it was leaked before, or
   placed by an update that stopped after its status request and tracked by none.
   */
  lemma LeaksExactly(cfg: Config, s: State, e: Event, k: string)
    requires e.Update? && Reaches(cfg, s, e)
    ensures k in Next(cfg, s, e).leaked <==>
      k !in e.d.resources && (k in s.leaked || (k in s.placed && k !in Tracked(cfg, s.node)))
  {
  }

  /** A half-done update leaves the tracking annotations alone, and so do edits amid it. */
  lemma HalfDoneTracks(cfg: Config, s: State, e: Event)
    requires ValidConfig(cfg) && cfg.allowOverwrite && Inv(cfg, s) && Enabled(cfg, s, e)
    requires e.Update? && Reaches(cfg, s, e) && !Ending(cfg, s, e).ok
    ensures Tracked(cfg, Next(cfg, s, e).node) == Tracked(cfg, s.node)
  {
    var t := AfterUpdate(cfg, s, e.d, e.statusOutage, e.metaOutage);
    NextUpdate(cfg, s, e);
    AfterUpdateInv(cfg, s, e.d, e.statusOutage, e.metaOutage);
    AfterUpdateAvoided(cfg, s, e.d, e.statusOutage, e.metaOutage, e.amid);
    ForeignKeepsTracking(cfg, t, e.amid);
    TrackedAfter(cfg, s, e.d, e.statusOutage, e.metaOutage);
  }

  /**
   After an update that stopped half-way, the next one whose status request gets through leaves behind
   exactly the resources that only the first desired and that were not tracked before it.
   */
  lemma HalfDoneLeaksExactly(cfg: Config, s: State, first: Event, second: Event, k: string)
    requires ValidConfig(cfg) && cfg.allowOverwrite && Inv(cfg, s) && s.leaked == {} && s.placed <= Tracked(cfg, s.node)
    requires first.Update? && second.Update? && Enabled(cfg, s, first) && Enabled(cfg, Next(cfg, s, first), second)
    requires Reaches(cfg, s, first) && !Ending(cfg, s, first).ok && Reaches(cfg, Next(cfg, s, first), second)
    ensures var after := Next(cfg, Next(cfg, s, first), second);
      && (k in after.leaked <==> k in first.d.resources && k !in Tracked(cfg, s.node) && k !in second.d.resources)
      && (k in after.leaked ==> k in after.node.capacity)
  {
    var mid := Next(cfg, s, first);
    HalfDoneTracks(cfg, s, first);
    LeaksExactly(cfg, s, first, k);
    LeaksExactly(cfg, mid, second, k);
    StepKeepsInv(cfg, s, first);
    StepKeepsInv(cfg, mid, second);
  }

  lemma LeakStep(cfg: Config, s: State, e: Event, k: string)
    requires k in s.leaked && (e.Update? ==> k !in e.d.resources)
    ensures k in Next(cfg, s, e).leaked
  {
    if e.Update? && Reaches(cfg, s, e) {
      LeaksExactly(cfg, s, e, k);
    }
  }

  /** A leaked resource stays on the node for as long as no update desires it. */
  lemma {:induction false} LeakStays(cfg: Config, s: State, es: seq<Event>, k: string)
    requires ValidConfig(cfg) && cfg.allowOverwrite && Inv(cfg, s) && Possible(cfg, s, es) && k in s.leaked
    requires forall i :: 0 <= i < |es| && es[i].Update? ==> k !in es[i].d.resources
    ensures k in Run(cfg, s, es).leaked && k in Run(cfg, s, es).node.capacity
    decreases |es|
  {
    if es != [] {
      StepKeepsInv(cfg, s, es[0]);
      assert es[0].Update? ==> k !in es[0].d.resources;
      LeakStep(cfg, s, es[0], k);
      forall i | 0 <= i < |es[1..]| && es[1..][i].Update? ensures k !in es[1..][i].d.resources {
        assert es[1..][i] == es[i + 1];
      }
      LeakStays(cfg, Next(cfg, s, es[0]), es[1..], k);
    }
  }

  /** Where every metadata request gets through or has nothing to send, nothing leaks. */
  lemma {:induction false} NoLeaks(cfg: Config, s: State, es: seq<Event>)
    requires ValidConfig(cfg) && cfg.allowOverwrite && Inv(cfg, s) && Possible(cfg, s, es)
    requires s.leaked == {} && s.placed <= Tracked(cfg, s.node)
    requires forall i :: 0 <= i < |es| && es[i].Update? ==> !es[i].metaOutage
    ensures Run(cfg, s, es).leaked == {}
    decreases |es|
  {
    if es != [] {
      StepKeepsInv(cfg, s, es[0]);
      assert es[0].Update? ==> !es[0].metaOutage;
      NoLeakStep(cfg, s, es[0]);
      forall i | 0 <= i < |es[1..]| && es[1..][i].Update? ensures !es[1..][i].metaOutage {
        assert es[1..][i] == es[i + 1];
      }
      NoLeaks(cfg, Next(cfg, s, es[0]), es[1..]);
    }
  }

  lemma NoLeakUpdate(cfg: Config, s: State, d: Desired, statusOutage: bool)
    requires ValidConfig(cfg) && cfg.allowOverwrite && Inv(cfg, s) && ValidDesired(cfg, d)
    requires s.leaked == {} && s.placed <= Tracked(cfg, s.node)
    ensures var t := AfterUpdate(cfg, s, d, statusOutage, false); t.leaked == {} && t.placed <= Tracked(cfg, t.node)
  {
    UpdateEnds(cfg, s.node, d, statusOutage, false);
    if Through(cfg, s.node, d, statusOutage) {
      StatusKeepsMeta(cfg, s.node, d, s.node);
      MetaEffect(cfg, s.node, d, StatusDone(cfg, s.node, d, s.node));
      TrackedAfter(cfg, s, d, statusOutage, false);
    }
  }

  lemma NoLeakStep(cfg: Config, s: State, e: Event)
    requires ValidConfig(cfg) && cfg.allowOverwrite && Inv(cfg, s) && Enabled(cfg, s, e)
    requires s.leaked == {} && s.placed <= Tracked(cfg, s.node) && (e.Update? ==> !e.metaOutage)
    ensures var t := Next(cfg, s, e); t.leaked == {} && t.placed <= Tracked(cfg, t.node)
  {
    match e {
      case Update(d, statusOutage, metaOutage, amid) =>
        NextUpdate(cfg, s, e);
        NoLeakUpdate(cfg, s, d, statusOutage);
        AfterUpdateInv(cfg, s, d, statusOutage, false);
        AfterUpdateAvoided(cfg, s, d, statusOutage, false, amid);
        ForeignKeepsTracking(cfg, AfterUpdate(cfg, s, d, statusOutage, false), amid);
      case Foreign(edit) =>
        ForeignKeepsTracking(cfg, s, edit);
    }
  }

  // ---- Every node of a run is one an update can be called on ----

  lemma EffectPatchable(m: Items, c: Container, ops: Ops)
    requires PatchableKeys(m) && PatchableTargets(ops)
    ensures PatchableKeys(EffectOn(m, c, ops))
  {
    forall k | k in EffectOn(m, c, ops) ensures Patchable(k) {
      EffectOnAt(m, c, ops, k);
      assert Target(c, k) in ops ==> Patchable(Target(c, k).key);
    }
  }

  lemma EffectValid(node: Node, ops: Ops)
    requires ValidNode(node) && PatchableTargets(ops)
    ensures ValidNode(Effect(node, ops))
  {
    EffectPatchable(node.labels, Labels, ops);
    EffectPatchable(node.annotations, Annotations, ops);
    EffectPatchable(node.capacity, Capacity, ops);
    EffectPatchable(node.allocatable, Allocatable, ops);
  }

  lemma StatusValid(cfg: Config, snap: Node, d: Desired, cur: Node)
    requires ValidNode(snap) && ValidNode(cur) && ValidDesired(cfg, d)
    ensures ValidNode(StatusDone(cfg, snap, d, cur))
  {
    ResourceTargets(cfg, snap, d);
    EffectValid(Dropped(cur, StaleResources(cfg, snap, d)), NeededResources(cfg, snap, d));
  }

  lemma UpdateValid(cfg: Config, snap: Node, d: Desired, cur: Node, statusOutage: bool, metaOutage: bool)
    requires ValidConfig(cfg) && ValidNode(snap) && ValidNode(cur) && ValidDesired(cfg, d)
    ensures ValidNode(UpdateOutcome(cfg, snap, d, cur, statusOutage, metaOutage).node)
  {
    StatusValid(cfg, snap, d, cur);
    MetaTargets(cfg, snap, d);
    EffectValid(StatusDone(cfg, snap, d, cur), MetaOps(cfg, snap, d));
  }

  lemma EditValid(node: Node, edit: Edit)
    requires ValidNode(node) && edit.Valid()
    ensures ValidNode(edit.On(node))
  {
  }

  lemma StepKeepsValid(cfg: Config, s: State, e: Event)
    requires ValidConfig(cfg) && ValidNode(s.node) && Enabled(cfg, s, e)
    ensures ValidNode(Next(cfg, s, e).node)
  {
    match e {
      case Update(d, statusOutage, metaOutage, amid) =>
        EditValid(s.node, amid);
        UpdateValid(cfg, s.node, d, amid.On(s.node), statusOutage, metaOutage);
      case Foreign(edit) =>
        EditValid(s.node, edit);
    }
  }

  lemma {:induction false} RunKeepsValid(cfg: Config, s: State, es: seq<Event>)
    requires ValidConfig(cfg) && ValidNode(s.node) && Possible(cfg, s, es)
    ensures ValidNode(Run(cfg, s, es).node)
    decreases |es|
  {
    if es != [] {
      StepKeepsValid(cfg, s, es[0]);
      RunKeepsValid(cfg, Next(cfg, s, es[0]), es[1..]);
    }
  }
}
