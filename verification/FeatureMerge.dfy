/**
 Merging the NodeFeature objects of a node: `getAndMergeNodeFeatures` of pkg/nfd-master/nfd-master.go.
 */
module FeatureMerge {
  import opened Strings
  import opened FeatureApi
  import opened FeatureSpecs
  import opened Namespacing
  import opened MergeOrder

  // ---- getAndMergeNodeFeatures ----

  /** `labelNs` is the default namespace for labels, `FEATURE_NS`. */
  datatype MergeConfig = MergeConfig(
    labelNs: string,
    own: string,
    nodeName: string,
    keep: string -> bool,
    denyNodeFeatureLabels: bool,
    autoPrefix: bool)

  /** An object that takes part in the merge. */
  predicate Selected(cfg: MergeConfig, objs: seq<NodeFeatureObject>, o: NodeFeatureObject) {
    o in objs && cfg.keep(o.namespace)
  }

  lemma OrderedSelected(cfg: MergeConfig, objs: seq<NodeFeatureObject>)
    ensures forall o :: o in Ordered(objs, cfg.keep, cfg.own) <==> Selected(cfg, objs, o)
    ensures forall i :: 0 <= i < |Ordered(objs, cfg.keep, cfg.own)| ==> Ordered(objs, cfg.keep, cfg.own)[i] in objs
  {
    var order := Ordered(objs, cfg.keep, cfg.own);
    forall o ensures o in order <==> Selected(cfg, objs, o) {
      OrderedElement(objs, cfg.keep, cfg.own, o);
    }
    forall i | 0 <= i < |order| ensures order[i] in objs {
      OrderedElement(objs, cfg.keep, cfg.own, order[i]);
    }
  }

  /** `isThirdPartyNodeFeature`. */
  predicate ThirdParty(cfg: MergeConfig, o: NodeFeatureObject) {
    o.namespace != cfg.own || o.name != cfg.nodeName
  }

  /** The labels of an object that count. */
  function GivenLabels(cfg: MergeConfig, o: NodeFeatureObject, labels: Attrs): Attrs {
    if cfg.denyNodeFeatureLabels && ThirdParty(cfg, o) then map[] else labels
  }

  /** Those labels as they are merged. */
  ghost predicate LabelPart(cfg: MergeConfig, given: Attrs, part: Attrs) {
    if cfg.autoPrefix then Namespaced(given, cfg.labelNs, part) else part == given
  }

  /** What a listed object brings to the merge. */
  datatype Contribution = Contribution(features: Features, labels: Attrs)

  ghost function Brings(cfg: MergeConfig, o: NodeFeatureObject): Contribution
    requires o.spec.Closed()
    reads o.spec, o.spec.flags, o.spec.attributes, o.spec.instances, o.spec.repr
  {
    Contribution(o.spec.Value().Features(), GivenLabels(cfg, o, o.spec.Value().labels))
  }

  /** The labels of a spec are dropped if they are denied, and prefixed if that is switched on. */
  method PrepareLabels(cfg: MergeConfig, s: NodeFeatureSpec, denied: bool)
    requires s.Valid()
    modifies s
    ensures s.Valid() && fresh(s.repr - old(s.repr))
    ensures s.Value() == old(s.Value()).(labels := s.Value().labels)
    ensures LabelPart(cfg, if denied then map[] else old(s.Value()).labels, s.Value().labels)
  {
    if denied {
      s.SetLabels(None);
    }
    if cfg.autoPrefix {
      assert NilMap(s.labels) == if denied then map[] else old(s.Value()).labels;
      var prefixed := AddNsToMapKeys(NilMap(s.labels), cfg.labelNs);
      s.SetLabels(Some(prefixed));
    }
  }

  /** A private copy of the spec of an object, labels filtered and prefixed. */
  method PreparedCopy(cfg: MergeConfig, o: NodeFeatureObject) returns (s: NodeFeatureSpec)
    requires o.spec.Closed()
    ensures fresh(s.repr) && s.Valid() && Prepared(cfg, old(Brings(cfg, o)), s.Value())
  {
    s := o.spec.DeepCopy();
    PrepareLabels(cfg, s, cfg.denyNodeFeatureLabels && ThirdParty(cfg, o));
  }

  function MergedAll(cs: seq<Contribution>): Features
    requires cs != []
  {
    if |cs| == 1 then cs[0].features else Merged(MergedAll(cs[..|cs| - 1]), cs[|cs| - 1].features)
  }

  /** `features` and `labels` are the merge of the contributions in order, labels as prefixed in `parts`. */
  ghost predicate MergeOf(cfg: MergeConfig, cs: seq<Contribution>, parts: seq<Attrs>, features: Features, labels: Attrs)
  {
    && cs != [] && |parts| == |cs|
    && (forall i :: 0 <= i < |cs| ==> LabelPart(cfg, cs[i].labels, parts[i]))
    && features == MergedAll(cs)
    && labels == Overlaid(parts)
  }

  /** `w` is a copy of a spec that brings `c`, prepared for merging. */
  ghost predicate Prepared(cfg: MergeConfig, c: Contribution, w: SpecValue) {
    w.Features() == c.features && LabelPart(cfg, c.labels, w.labels)
  }

  /** The first `n` contributions merge to `v`. */
  ghost predicate Folded(cfg: MergeConfig, cs: seq<Contribution>, n: nat, parts: seq<Attrs>, v: SpecValue) {
    n <= |cs| && MergeOf(cfg, cs[..n], parts, v.Features(), v.labels)
  }

  lemma FoldedFirst(cfg: MergeConfig, cs: seq<Contribution>, v: SpecValue)
    requires cs != [] && Prepared(cfg, cs[0], v)
    ensures Folded(cfg, cs, 1, [v.labels], v)
  {
    assert cs[..1] == [cs[0]];
    assert Overlaid([v.labels]) == map[] + v.labels by { assert [v.labels][..0] == []; }
  }

  lemma FoldedNext(cfg: MergeConfig, cs: seq<Contribution>, n: nat, parts: seq<Attrs>, v: SpecValue, w: SpecValue)
    requires Folded(cfg, cs, n, parts, v) && n < |cs| && Prepared(cfg, cs[n], w)
    ensures Folded(cfg, cs, n + 1, parts + [w.labels], v.MergedWith(w))
  {
    v.MergedFeatures(w);
    OverlaidNext(parts, w.labels);
    assert cs[..n + 1] == cs[..n] + [cs[n]];
    assert cs[..n + 1][..n] == cs[..n];
  }

  lemma FoldedAll(cfg: MergeConfig, cs: seq<Contribution>, parts: seq<Attrs>, v: SpecValue)
    requires Folded(cfg, cs, |cs|, parts, v)
    ensures MergeOf(cfg, cs, parts, v.Features(), v.labels)
  {
    assert cs[..|cs|] == cs;
  }

  /** One turn of the merge loop. */
  method MergeOne(cfg: MergeConfig, o: NodeFeatureObject, into: NodeFeatureSpec) returns (ghost w: SpecValue)
    requires o.spec.Closed() && into.Valid()
    modifies into.repr
    ensures Prepared(cfg, old(Brings(cfg, o)), w)
    ensures into.Valid() && into.Value() == old(into.Value()).MergedWith(w)
    ensures forall o :: o in into.repr ==> o in old(into.repr) || fresh(o)
  {
    var s := PreparedCopy(cfg, o);
    into.Kept();
    w := s.Value();
    s.MergeInto(into);
  }

  ghost function AllBring(cfg: MergeConfig, order: seq<NodeFeatureObject>): (cs: seq<Contribution>)
    requires forall i :: 0 <= i < |order| ==> order[i].spec.Closed()
    reads *
    ensures |cs| == |order| && forall i :: 0 <= i < |order| ==> cs[i] == Brings(cfg, order[i])
  {
    seq(|order|, i requires 0 <= i < |order| && order[i].spec.Closed() reads * => Brings(cfg, order[i]))
  }

  ghost predicate AllBrought(cfg: MergeConfig, order: seq<NodeFeatureObject>, cs: seq<Contribution>)
    reads *
  {
    |cs| == |order| && forall i :: 0 <= i < |order| ==> order[i].spec.Closed() && Brings(cfg, order[i]) == cs[i]
  }

  /** The loop over the objects after the first. */
  method MergeOthers(cfg: MergeConfig, order: seq<NodeFeatureObject>, merged: NodeFeatureSpec,
      ghost cs: seq<Contribution>, ghost first: Attrs)
    returns (ghost parts: seq<Attrs>, ghost v: SpecValue)
    requires order != [] && AllBrought(cfg, order, cs) && merged.Valid()
    requires forall i :: 0 <= i < |order| ==> order[i].spec.repr !! merged.repr
    requires Folded(cfg, cs, 1, [first], merged.Value())
    modifies merged.repr
    ensures merged.Valid() && merged.Value() == v
    ensures forall o :: o in merged.repr ==> o in old(merged.repr) || fresh(o)
    ensures Folded(cfg, cs, |order|, parts, v)
  {
    v, parts := merged.Value(), [first];
    for i := 1 to |order|
      invariant merged.Valid() && merged.Value() == v
      invariant forall o :: o in merged.repr ==> o in old(merged.repr) || fresh(o)
      invariant Folded(cfg, cs, i, parts, v)
    {
      order[i].spec.Kept();
      ghost var w := MergeOne(cfg, order[i], merged);
      FoldedNext(cfg, cs, i, parts, v, w);
      v, parts := v.MergedWith(w), parts + [w.labels];
    }
  }

  /** The merge, of objects already in order. */
  method MergeOrdered(cfg: MergeConfig, order: seq<NodeFeatureObject>, ghost cs: seq<Contribution>)
    returns (merged: NodeFeatureSpec, ghost parts: seq<Attrs>)
    requires order != [] && AllBrought(cfg, order, cs)
    ensures fresh(merged.repr) && merged.Valid()
    ensures MergeOf(cfg, cs, parts, merged.Value().Features(), merged.Value().labels)
  {
    merged := PreparedCopy(cfg, order[0]);
    FoldedFirst(cfg, cs, merged.Value());
    forall i | 0 <= i < |order| ensures order[i].spec.Closed() && Brings(cfg, order[i]) == cs[i] {
      order[i].spec.Kept();
    }
    ghost var v;
    parts, v := MergeOthers(cfg, order, merged, cs, merged.Value().labels);
    FoldedAll(cfg, cs, parts, v);
  }

  /**
   `getAndMergeNodeFeatures`: nothing when no object is selected, otherwise a spec made of new objects
   throughout, maps of instances included. No listed object or map changes.
   */
  method GetAndMerge(cfg: MergeConfig, objs: seq<NodeFeatureObject>)
    returns (merged: NodeFeatureSpec?, order: seq<NodeFeatureObject>, ghost cs: seq<Contribution>,
      ghost parts: seq<Attrs>)
    requires forall o :: o in objs ==> o.spec.Closed()
    ensures order == Ordered(objs, cfg.keep, cfg.own) && MergeOrdering(cfg.own, order)
    ensures forall o :: o in order <==> Selected(cfg, objs, o)
    ensures merged == null <==> order == []
    ensures merged != null ==> fresh(merged.repr) && merged.Valid()
    ensures merged != null ==> MergeResult(cfg, objs, cs, parts, merged.Value().Features(), merged.Value().labels)
    ensures forall o :: o in objs ==>
      o.spec.Closed() && o.spec.repr == old(o.spec.repr) && o.spec.Value() == old(o.spec.Value())
  {
    order := Ordered(objs, cfg.keep, cfg.own);
    merged, cs, parts := null, [], [];
    OrderedFollows(objs, cfg.keep, cfg.own);
    OrderedSelected(cfg, objs);
    if order != [] {
      cs := AllBring(cfg, order);
      merged, parts := MergeOrdered(cfg, order, cs);
    }
    forall o | o in objs
      ensures o.spec.Closed() && o.spec.repr == old(o.spec.repr) && o.spec.Value() == old(o.spec.Value())
    {
      o.spec.Kept();
    }
  }

  // ---- What the merge contains ----

  predicate HasFlag(f: Features, feature: string, key: string) {
    FlagsAt(f, feature).Some? && key in FlagsAt(f, feature).value
  }

  lemma FlagsStep(cs: seq<Contribution>, feature: string, key: string)
    requires |cs| > 1
    ensures HasFlag(MergedAll(cs), feature, key) <==>
      HasFlag(MergedAll(cs[..|cs| - 1]), feature, key) || HasFlag(cs[|cs| - 1].features, feature, key)
  {
  }

  ghost predicate SomeFlag(cs: seq<Contribution>, feature: string, key: string) {
    exists i :: 0 <= i < |cs| && HasFlag(cs[i].features, feature, key)
  }

  lemma SomeFlagStep(cs: seq<Contribution>, feature: string, key: string)
    requires cs != []
    ensures SomeFlag(cs, feature, key) <==>
      SomeFlag(cs[..|cs| - 1], feature, key) || HasFlag(cs[|cs| - 1].features, feature, key)
  {
    var init := cs[..|cs| - 1];
    assert forall i :: 0 <= i < |init| ==> init[i] == cs[i];
  }

  /** Flags are the union. */
  lemma {:induction false} FlagsUnion(cs: seq<Contribution>, feature: string, key: string)
    requires cs != []
    ensures HasFlag(MergedAll(cs), feature, key) <==> SomeFlag(cs, feature, key)
  {
    SomeFlagStep(cs, feature, key);
    if |cs| > 1 {
      FlagsUnion(cs[..|cs| - 1], feature, key);
      FlagsStep(cs, feature, key);
    }
  }

  function AttrOf(f: Features, feature: string, key: string): Option<string> {
    var attrs := AttrsAt(f, feature);
    if attrs.Some? && key in attrs.value then Some(attrs.value[key]) else None
  }

  lemma AttributeStep(cs: seq<Contribution>, feature: string, key: string)
    requires |cs| > 1
    ensures var last := AttrOf(cs[|cs| - 1].features, feature, key);
      AttrOf(MergedAll(cs), feature, key) ==
        if last.Some? then last else AttrOf(MergedAll(cs[..|cs| - 1]), feature, key)
  {
  }

  /** Attributes take the value of the last object that has them. */
  lemma {:induction false} AttributeLastWins(cs: seq<Contribution>, feature: string, key: string, i: int)
    requires cs != [] && -1 <= i < |cs|
    requires i >= 0 ==> AttrOf(cs[i].features, feature, key).Some?
    requires forall j :: i < j < |cs| ==> AttrOf(cs[j].features, feature, key) == None
    ensures AttrOf(MergedAll(cs), feature, key) == if i < 0 then None else AttrOf(cs[i].features, feature, key)
  {
    if |cs| > 1 {
      var init := cs[..|cs| - 1];
      AttributeStep(cs, feature, key);
      if i < |cs| - 1 {
        assert AttrOf(cs[|cs| - 1].features, feature, key) == None;
        AttributeLastWins(init, feature, key, i);
      }
    }
  }

  /** The lists one after the other. */
  function Flattened(lists: seq<seq<Attrs>>): seq<Attrs> {
    if lists == [] then [] else Flattened(lists[..|lists| - 1]) + lists[|lists| - 1]
  }

  function InstanceListsOf(cs: seq<Contribution>, feature: string): (lists: seq<seq<Attrs>>)
    ensures |lists| == |cs| && forall i :: 0 <= i < |cs| ==> lists[i] == InstancesAt(cs[i].features, feature)
  {
    seq(|cs|, i requires 0 <= i < |cs| => InstancesAt(cs[i].features, feature))
  }

  lemma InstancesStep(cs: seq<Contribution>, feature: string)
    requires |cs| > 1
    ensures InstancesAt(MergedAll(cs), feature) ==
      InstancesAt(MergedAll(cs[..|cs| - 1]), feature) + InstancesAt(cs[|cs| - 1].features, feature)
  {
  }

  /** Instances are concatenated in order. */
  lemma {:induction false} InstancesConcat(cs: seq<Contribution>, feature: string)
    requires cs != []
    ensures InstancesAt(MergedAll(cs), feature) == Flattened(InstanceListsOf(cs, feature))
  {
    var n, lists := |cs| - 1, InstanceListsOf(cs, feature);
    if n == 0 {
      assert lists[..0] == [];
      assert [] + lists[0] == lists[0];
    } else {
      InstancesConcat(cs[..n], feature);
      InstancesStep(cs, feature);
      assert lists[..n] == InstanceListsOf(cs[..n], feature);
    }
  }

  lemma {:induction false} OverlaidAt(parts: seq<Attrs>, q: string, i: int)
    requires -1 <= i < |parts| && (i >= 0 ==> q in parts[i])
    requires forall j :: i < j < |parts| ==> q !in parts[j]
    ensures q in Overlaid(parts) <==> i >= 0
    ensures i >= 0 ==> Overlaid(parts)[q] == parts[i][q]
  {
    if parts != [] {
      var k := |parts| - 1;
      if i < k {
        assert q !in parts[k];
        OverlaidAt(parts[..k], q, i);
      }
    }
  }

  /** What an object says about a label, by its prefixed or its unprefixed name. */
  ghost function LabelValue(cfg: MergeConfig, given: Attrs, q: string): Option<string> {
    if cfg.autoPrefix then Stands(given, cfg.labelNs, q) else if q in given then Some(given[q]) else None
  }

  /** Labels take the value of the last object that has them, whichever name it uses. */
  lemma LabelLastWins(cfg: MergeConfig, cs: seq<Contribution>, parts: seq<Attrs>, features: Features, labels: Attrs,
      q: string, i: int)
    requires MergeOf(cfg, cs, parts, features, labels) && (cfg.autoPrefix ==> AllDeterminate(cfg, cs))
    requires -1 <= i < |cs| && (i >= 0 ==> LabelValue(cfg, cs[i].labels, q).Some?)
    requires forall j :: i < j < |cs| ==> LabelValue(cfg, cs[j].labels, q) == None
    ensures q in labels <==> i >= 0
    ensures i >= 0 ==> Some(labels[q]) == LabelValue(cfg, cs[i].labels, q)
  {
    forall j | 0 <= j < |cs|
      ensures (q in parts[j] <==> LabelValue(cfg, cs[j].labels, q).Some?)
      ensures q in parts[j] ==> Some(parts[j][q]) == LabelValue(cfg, cs[j].labels, q)
    {
      assert LabelPart(cfg, cs[j].labels, parts[j]);
      if cfg.autoPrefix {
        assert Determinate(cs[j].labels, cfg.labelNs);
        NamespacedStands(cs[j].labels, cfg.labelNs, parts[j], q);
      }
    }
    OverlaidAt(parts, q, i);
  }

  /** No object gives two values to one label by writing it in two odd ways. */
  ghost predicate AllDeterminate(cfg: MergeConfig, cs: seq<Contribution>) {
    forall i :: 0 <= i < |cs| ==> Determinate(cs[i].labels, cfg.labelNs)
  }

  /** The merge has one result for given objects in a given order. */
  lemma MergeDetermined(cfg: MergeConfig, cs: seq<Contribution>, parts: seq<Attrs>, parts': seq<Attrs>, f: Features,
      f': Features, l: Attrs, l': Attrs)
    requires cfg.autoPrefix ==> AllDeterminate(cfg, cs)
    requires MergeOf(cfg, cs, parts, f, l) && MergeOf(cfg, cs, parts', f', l')
    ensures f == f' && l == l'
  {
    forall i | 0 <= i < |cs| ensures parts[i] == parts'[i] {
      assert LabelPart(cfg, cs[i].labels, parts[i]) && LabelPart(cfg, cs[i].labels, parts'[i]);
      if cfg.autoPrefix {
        assert Determinate(cs[i].labels, cfg.labelNs);
        NamespacedUnique(cs[i].labels, cfg.labelNs, parts[i], parts'[i]);
      }
    }
    assert parts == parts';
  }

  /** What `GetAndMerge` promises of its result. */
  ghost predicate MergeResult(cfg: MergeConfig, objs: seq<NodeFeatureObject>, cs: seq<Contribution>, parts: seq<Attrs>,
      features: Features, labels: Attrs)
    reads *
  {
    var order := Ordered(objs, cfg.keep, cfg.own);
    && |cs| == |order| && (forall i :: 0 <= i < |order| ==> order[i].spec.Closed() && cs[i] == Brings(cfg, order[i]))
    && MergeOf(cfg, cs, parts, features, labels)
  }

  // ---- Which object wins ----

  /** The last element with the property, or -1. */
  lemma {:induction false} LastWith<T>(p: T -> bool, xs: seq<T>) returns (j: int)
    ensures -1 <= j < |xs| && (j >= 0 ==> p(xs[j])) && forall i :: j < i < |xs| ==> !p(xs[i])
  {
    if xs == [] {
      j := -1;
    } else if p(xs[|xs| - 1]) {
      j := |xs| - 1;
    } else {
      var k := |xs| - 1;
      j := LastWith(p, xs[..k]);
      assert forall i :: 0 <= i < k ==> xs[..k][i] == xs[i];
    }
  }

  /** What each listed object gives for one name, if anything. */
  type Given = map<NodeFeatureObject, Option<string>>

  ghost function AttrsGiven(objs: seq<NodeFeatureObject>, feature: string, key: string): Given
    requires forall o :: o in objs ==> o.spec.Closed()
    reads *
  {
    map o | o in objs :: AttrOf(o.spec.Value().Features(), feature, key)
  }

  /** With denial switched on, only the object of this node in the master's namespace gives labels. */
  ghost function LabelGiven(cfg: MergeConfig, o: NodeFeatureObject, labels: Attrs, q: string): Option<string> {
    if !cfg.denyNodeFeatureLabels || (o.namespace == cfg.own && o.name == cfg.nodeName) then LabelValue(cfg, labels, q)
    else None
  }

  ghost function LabelsGiven(cfg: MergeConfig, objs: seq<NodeFeatureObject>, q: string): Given
    requires forall o :: o in objs ==> o.spec.Closed()
    reads *
  {
    map o | o in objs :: LabelGiven(cfg, o, o.spec.Value().labels, q)
  }

  lemma LabelGivenValue(cfg: MergeConfig, o: NodeFeatureObject, labels: Attrs, q: string)
    ensures LabelGiven(cfg, o, labels, q) == LabelValue(cfg, GivenLabels(cfg, o, labels), q)
  {
  }

  /** The merge takes nothing, if no selected object gives anything, or what the one that follows all others gives. */
  ghost predicate Wins(cfg: MergeConfig, objs: seq<NodeFeatureObject>, given: Given, merged: Option<string>,
      w: NodeFeatureObject?)
  {
    if w == null then merged == None && forall o :: o in given && Selected(cfg, objs, o) ==> given[o] == None
    else
      && Selected(cfg, objs, w) && w in given && merged == given[w] && merged.Some?
      && forall o :: o in given && Selected(cfg, objs, o) && given[o].Some? ==> o == w || Follows(cfg.own, o, w)
  }

  /** The last of the ordered objects that gives something is the one that wins. */
  lemma LastWins(cfg: MergeConfig, objs: seq<NodeFeatureObject>, given: Given, merged: Option<string>, j: int)
    requires forall o :: o in objs ==> o in given
    requires var order := Ordered(objs, cfg.keep, cfg.own);
      && -1 <= j < |order| && (forall i :: 0 <= i < |order| ==> order[i] in given)
      && (forall i :: j < i < |order| ==> given[order[i]] == None)
      && merged == (if j < 0 then None else given[order[j]]) && (j >= 0 ==> merged.Some?)
    ensures Wins(cfg, objs, given, merged, if j < 0 then null else Ordered(objs, cfg.keep, cfg.own)[j])
  {
    var order := Ordered(objs, cfg.keep, cfg.own);
    OrderedFollows(objs, cfg.keep, cfg.own);
    forall o | o in given && Selected(cfg, objs, o) && given[o].Some?
      ensures j >= 0 && (o == order[j] || Follows(cfg.own, o, order[j]))
    {
      OrderedElement(objs, cfg.keep, cfg.own, o);
      var i :| 0 <= i < |order| && order[i] == o;
    }
    if j >= 0 { OrderedElement(objs, cfg.keep, cfg.own, order[j]); }
  }

  /** An attribute is that of the object which follows all others that have it. */
  lemma AttributeWinner(cfg: MergeConfig, objs: seq<NodeFeatureObject>, cs: seq<Contribution>, parts: seq<Attrs>,
      features: Features, labels: Attrs, feature: string, key: string)
    returns (w: NodeFeatureObject?)
    requires (forall o :: o in objs ==> o.spec.Closed()) && MergeResult(cfg, objs, cs, parts, features, labels)
    ensures Wins(cfg, objs, AttrsGiven(objs, feature, key), AttrOf(features, feature, key), w)
  {
    var order := Ordered(objs, cfg.keep, cfg.own);
    var j := LastWith((c: Contribution) => AttrOf(c.features, feature, key).Some?, cs);
    AttributeLastWins(cs, feature, key, j);
    OrderedSelected(cfg, objs);
    w := if j < 0 then null else order[j];
    LastWins(cfg, objs, AttrsGiven(objs, feature, key), AttrOf(features, feature, key), j);
  }

  /** So is a label. */
  lemma LabelWinner(cfg: MergeConfig, objs: seq<NodeFeatureObject>, cs: seq<Contribution>, parts: seq<Attrs>,
      features: Features, labels: Attrs, q: string)
    returns (w: NodeFeatureObject?)
    requires (forall o :: o in objs ==> o.spec.Closed()) && MergeResult(cfg, objs, cs, parts, features, labels)
    requires cfg.autoPrefix ==> AllDeterminate(cfg, cs)
    ensures Wins(cfg, objs, LabelsGiven(cfg, objs, q), if q in labels then Some(labels[q]) else None, w)
  {
    var order := Ordered(objs, cfg.keep, cfg.own);
    var j := LastWith((c: Contribution) => LabelValue(cfg, c.labels, q).Some?, cs);
    LabelLastWins(cfg, cs, parts, features, labels, q, j);
    forall i | 0 <= i < |order|
      ensures LabelGiven(cfg, order[i], order[i].spec.Value().labels, q) == LabelValue(cfg, cs[i].labels, q)
    {
      LabelGivenValue(cfg, order[i], order[i].spec.Value().labels, q);
    }
    OrderedSelected(cfg, objs);
    w := if j < 0 then null else order[j];
    LastWins(cfg, objs, LabelsGiven(cfg, objs, q), if q in labels then Some(labels[q]) else None, j);
  }

  /** What is merged comes from a selected object outside the master's namespace. */
  ghost predicate FromForeign(cfg: MergeConfig, objs: seq<NodeFeatureObject>, given: Given, merged: Option<string>) {
    exists w :: w in given && Selected(cfg, objs, w) && w.namespace != cfg.own && merged == given[w] && merged.Some?
  }

  lemma ForeignWins(cfg: MergeConfig, objs: seq<NodeFeatureObject>, given: Given, merged: Option<string>,
      w: NodeFeatureObject?, o: NodeFeatureObject)
    requires Wins(cfg, objs, given, merged, w) && o in given && Selected(cfg, objs, o)
    requires given[o].Some? && o.namespace != cfg.own
    ensures FromForeign(cfg, objs, given, merged)
  {
  }

  /** An attribute of an object outside the master's namespace is overridden by no object of that namespace. */
  lemma ForeignAttributeWins(cfg: MergeConfig, objs: seq<NodeFeatureObject>, cs: seq<Contribution>, parts: seq<Attrs>,
      features: Features, labels: Attrs, feature: string, key: string, o: NodeFeatureObject)
    requires (forall o :: o in objs ==> o.spec.Closed()) && MergeResult(cfg, objs, cs, parts, features, labels)
    requires Selected(cfg, objs, o) && o.namespace != cfg.own && AttrsGiven(objs, feature, key)[o].Some?
    ensures FromForeign(cfg, objs, AttrsGiven(objs, feature, key), AttrOf(features, feature, key))
  {
    var w := AttributeWinner(cfg, objs, cs, parts, features, labels, feature, key);
    ForeignWins(cfg, objs, AttrsGiven(objs, feature, key), AttrOf(features, feature, key), w, o);
  }

  /** Nor is a label. */
  lemma ForeignLabelWins(cfg: MergeConfig, objs: seq<NodeFeatureObject>, cs: seq<Contribution>, parts: seq<Attrs>,
      features: Features, labels: Attrs, q: string, o: NodeFeatureObject)
    requires (forall o :: o in objs ==> o.spec.Closed()) && MergeResult(cfg, objs, cs, parts, features, labels)
    requires cfg.autoPrefix ==> AllDeterminate(cfg, cs)
    requires Selected(cfg, objs, o) && o.namespace != cfg.own && LabelsGiven(cfg, objs, q)[o].Some?
    ensures q in labels && FromForeign(cfg, objs, LabelsGiven(cfg, objs, q), Some(labels[q]))
  {
    var w := LabelWinner(cfg, objs, cs, parts, features, labels, q);
    ForeignWins(cfg, objs, LabelsGiven(cfg, objs, q), if q in labels then Some(labels[q]) else None, w, o);
  }

  /** The result does not depend on the order in which the lister returns the objects. */
  lemma ListingIrrelevant(cfg: MergeConfig, a: seq<NodeFeatureObject>, b: seq<NodeFeatureObject>,
      cs: seq<Contribution>, cs': seq<Contribution>, parts: seq<Attrs>, parts': seq<Attrs>, f: Features, f': Features,
      l: Attrs, l': Attrs)
    requires multiset(a) == multiset(b) && UniquelyNamed(a)
    requires MergeResult(cfg, a, cs, parts, f, l) && MergeResult(cfg, b, cs', parts', f', l')
    requires cfg.autoPrefix ==> AllDeterminate(cfg, cs)
    ensures f == f' && l == l'
  {
    OrderedPermutation(a, b, cfg.keep, cfg.own);
    assert cs == cs';
    MergeDetermined(cfg, cs, parts, parts', f, f', l, l');
  }
}
