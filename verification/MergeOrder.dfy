/**
 The order in which the NodeFeature objects of a node are merged: the comparator of
 `getAndMergeNodeFeatures` in pkg/nfd-master/nfd-master.go.
 */
module MergeOrder {
  import opened Strings
  import opened Sorting
  import opened FeatureSpecs

  class NodeFeatureObject {
    const namespace: string
    const name: string
    const spec: NodeFeatureSpec

    constructor (namespace: string, name: string, spec: NodeFeatureSpec)
      ensures this.namespace == namespace && this.name == name && this.spec == spec
    {
      this.namespace, this.name, this.spec := namespace, name, spec;
    }
  }

  /** The comparator: the master's namespace first, then by name, then by namespace. */
  predicate Before(own: string, ns1: string, name1: string, ns2: string, name2: string) {
    if ns1 == own && ns2 != own then true
    else if ns1 != own && ns2 == own then false
    else if name1 != name2 then Less(name1, name2)
    else Less(ns1, ns2)
  }

  lemma BeforeTotal(own: string, ns1: string, name1: string, ns2: string, name2: string)
    ensures !(Before(own, ns1, name1, ns2, name2) && Before(own, ns2, name2, ns1, name1))
    ensures !Before(own, ns1, name1, ns2, name2) && !Before(own, ns2, name2, ns1, name1) <==>
      ns1 == ns2 && name1 == name2
  {
    LessTrichotomy(name1, name2);
    LessTrichotomy(ns1, ns2);
  }

  lemma BeforeTransitive(own: string, ns1: string, name1: string, ns2: string, name2: string, ns3: string,
      name3: string)
    requires Before(own, ns1, name1, ns2, name2) && Before(own, ns2, name2, ns3, name3)
    ensures Before(own, ns1, name1, ns3, name3)
  {
    if name1 != name2 && name2 != name3 && Less(name1, name2) && Less(name2, name3) {
      LessTransitive(name1, name2, name3);
      LessTrichotomy(name1, name3);
    }
    if Less(ns1, ns2) && Less(ns2, ns3) {
      LessTransitive(ns1, ns2, ns3);
    }
  }

  function InOrder(own: string): (NodeFeatureObject, NodeFeatureObject) -> bool {
    (a: NodeFeatureObject, b: NodeFeatureObject) => Before(own, a.namespace, a.name, b.namespace, b.name)
  }

  /** No two listed objects share namespace and name. */
  ghost predicate UniquelyNamed(objs: seq<NodeFeatureObject>) {
    forall a, b :: a in objs && b in objs && a.namespace == b.namespace && a.name == b.name ==> a == b
  }

  lemma InOrderStrict(own: string, objs: seq<NodeFeatureObject>)
    ensures StrictOn(InOrder(own), iset o | o in objs)
  {
    var less, carrier := InOrder(own), iset o | o in objs;
    forall x, y | x in carrier && y in carrier && less(x, y) ensures !less(y, x) {
      BeforeTotal(own, x.namespace, x.name, y.namespace, y.name);
    }
    forall x, y, z | x in carrier && y in carrier && z in carrier && less(x, y) && less(y, z) ensures less(x, z) {
      BeforeTransitive(own, x.namespace, x.name, y.namespace, y.name, z.namespace, z.name);
    }
  }

  lemma InOrderTotal(own: string, objs: seq<NodeFeatureObject>)
    requires UniquelyNamed(objs)
    ensures OrderOn(InOrder(own), iset o | o in objs)
  {
    var less, carrier := InOrder(own), iset o | o in objs;
    InOrderStrict(own, objs);
    forall x, y | x in carrier && y in carrier && !less(x, y) && !less(y, x) ensures x == y {
      BeforeTotal(own, x.namespace, x.name, y.namespace, y.name);
    }
  }

  function InNamespace(keep: string -> bool): NodeFeatureObject -> bool {
    (o: NodeFeatureObject) => keep(o.namespace)
  }

  /** The objects that are merged, in the order in which they are merged. */
  function Ordered(objs: seq<NodeFeatureObject>, keep: string -> bool, own: string): seq<NodeFeatureObject> {
    Sort(InOrder(own), Filter(InNamespace(keep), objs))
  }

  /** The objects of selected namespaces, and no others, are merged. */
  lemma OrderedElement(objs: seq<NodeFeatureObject>, keep: string -> bool, own: string, o: NodeFeatureObject)
    ensures o in Ordered(objs, keep, own) <==> o in objs && keep(o.namespace)
  {
    SameElements(Ordered(objs, keep, own), Filter(InNamespace(keep), objs));
    FilterElement(InNamespace(keep), objs, o);
  }

  // ---- What the order is ----

  ghost predicate NotAfter(a: string, b: string) {
    a == b || Precedes(a, b)
  }

  /** Both objects are in the master's namespace, or neither is. */
  predicate SameSide(own: string, a: NodeFeatureObject, b: NodeFeatureObject) {
    a.namespace == own <==> b.namespace == own
  }

  /** The objects of the master's namespace come first; on each side names ascend, and namespaces of one name. */
  ghost predicate MergeOrdering(own: string, order: seq<NodeFeatureObject>) {
    forall i, j :: 0 <= i < j < |order| ==> Follows(own, order[i], order[j])
  }

  ghost predicate Follows(own: string, a: NodeFeatureObject, b: NodeFeatureObject) {
    && (b.namespace == own ==> a.namespace == own)
    && (SameSide(own, a, b) ==> NotAfter(a.name, b.name))
    && (SameSide(own, a, b) && a.name == b.name ==> NotAfter(a.namespace, b.namespace))
  }

  /** What the comparator does not put the other way round is in that order. */
  lemma NotBefore(own: string, a: NodeFeatureObject, b: NodeFeatureObject)
    requires !InOrder(own)(b, a)
    ensures Follows(own, a, b)
  {
    LessTrichotomy(a.name, b.name);
    LessTrichotomy(a.namespace, b.namespace);
    LessMeans(a.name, b.name);
    LessMeans(a.namespace, b.namespace);
  }

  lemma OrderedFollows(objs: seq<NodeFeatureObject>, keep: string -> bool, own: string)
    ensures MergeOrdering(own, Ordered(objs, keep, own))
  {
    var less, order, carrier := InOrder(own), Ordered(objs, keep, own), iset o | o in objs;
    InOrderStrict(own, objs);
    forall o | o in Filter(InNamespace(keep), objs) ensures o in carrier { FilterElement(InNamespace(keep), objs, o); }
    SortSorted(less, Filter(InNamespace(keep), objs), carrier);
    forall i, j | 0 <= i < j < |order| ensures Follows(own, order[i], order[j]) {
      SortedPairs(less, order, i, j);
      NotBefore(own, order[i], order[j]);
    }
  }

  // ---- However they are listed ----

  /** However the lister returns the objects, they are merged in one order. */
  lemma OrderedPermutation(a: seq<NodeFeatureObject>, b: seq<NodeFeatureObject>, keep: string -> bool, own: string)
    requires multiset(a) == multiset(b) && UniquelyNamed(a)
    ensures Ordered(a, keep, own) == Ordered(b, keep, own)
  {
    var less, carrier := InOrder(own), iset o | o in a;
    SameElements(a, b);
    InOrderTotal(own, a);
    var pick := InNamespace(keep);
    FilterPermutation(pick, a, b);
    forall o | o in Filter(pick, a) ensures o in carrier { FilterElement(pick, a, o); }
    forall o | o in Filter(pick, b) ensures o in carrier { FilterElement(pick, b, o); }
    SortSorted(less, Filter(pick, a), carrier);
    SortSorted(less, Filter(pick, b), carrier);
    forall o | o in Ordered(a, keep, own) ensures o in carrier {
      SortElement(less, Filter(pick, a), o);
    }
    SortedUnique(less, Ordered(a, keep, own), Ordered(b, keep, own), carrier);
  }
}
