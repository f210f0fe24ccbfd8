/**
 NodeFeature specs as Go holds them, maps below maps, each an object that could be shared: the deep copy
 and the `MergeInto` methods of api/nfd/v1alpha1/feature.go, which write into the maps of their target.
 */
module FeatureSpecs {
  import opened Strings
  import opened FeatureApi

  // ---- Merging values ----

  function MergedElements<V>(into: Option<map<string, V>>, from: Option<map<string, V>>): Option<map<string, V>> {
    if from.None? then into else Some((if into.Some? then into.value else map[]) + from.value)
  }

  type Table<V> = map<string, Option<map<string, V>>>

  function At<V>(t: Table<V>, k: string): Option<map<string, V>> {
    if k in t then t[k] else None
  }

  /** `base` after the keys `done` of `from` have been merged into it. */
  function MergedOn<V>(base: Table<V>, from: Table<V>, done: set<string>): Table<V> {
    map k | k in base.Keys + done :: if k in done then MergedElements(At(base, k), At(from, k)) else At(base, k)
  }

  lemma MergedOnNext<V>(base: Table<V>, from: Table<V>, done: set<string>, key: string)
    requires key !in done
    ensures MergedOn(base, from, done)[key := MergedElements(At(MergedOn(base, from, done), key), At(from, key))] ==
      MergedOn(base, from, done + {key})
  {
  }

  lemma MergedOnNothing<V>(from: Table<V>)
    ensures MergedOn(map[], from, from.Keys) == from
  {
    assert forall k :: k in from && from[k].Some? ==> map[] + from[k].value == from[k].value;
  }

  // ---- Flags and attributes ----

  /** `map[string]FlagFeatureSet` and `map[string]AttributeFeatureSet`; null is a nil element map. */
  class ElementTable<V> {
    var m: map<string, Elements?<V>>

    constructor ()
      ensures m == map[]
    {
      m := map[];
    }

    ghost function Maps(): set<object>
      reads this
    {
      set k | k in m && m[k] != null :: m[k]
    }

    /** No two features share a map. */
    ghost predicate Valid()
      reads this
    {
      forall k, l :: k in m && l in m && k != l && m[k] != null ==> m[k] != m[l]
    }

    ghost function Content(): (t: Table<V>)
      reads this, Maps()
      ensures t.Keys == m.Keys
    {
      map k | k in m :: if m[k] == null then None else Some(m[k].m)
    }

    /** Nothing but the entry of `key` changed. */
    twostate lemma OneChanged(key: string)
      requires m.Keys == old(m.Keys) + {key}
      requires forall k :: k in old(m) && k != key ==> m[k] == old(m[k]) && (m[k] != null ==> m[k].m == old(m[k].m))
      ensures Content() == old(Content())[key := if m[key] == null then None else Some(m[key].m)]
    {
    }

    /** `MergeInto` of one element set: the map of the target is written in place, or made if it is nil. */
    method MergeElements(key: string, val: Elements?<V>)
      requires Valid()
      modifies this, if key in m && m[key] != null then {m[key]} else {}
      ensures Valid() && m.Keys == old(m.Keys) + {key}
      ensures forall k :: k in old(m) && k != key ==> m[k] == old(m[k])
      ensures m[key] == null || fresh(m[key]) || (key in old(m) && m[key] == old(m[key]))
      ensures val != null ==> val.m == old(val.m)
      ensures forall o :: o in Maps() ==> o in old(Maps()) || fresh(o)
      ensures Content() ==
        old(Content())[key := MergedElements(At(old(Content()), key), if val == null then None else Some(old(val.m)))]
    {
      var outVal: Elements?<V> := if key in m then m[key] else null;
      if val != null {
        if outVal == null {
          outVal := new Elements<V>(map[]);
        }
        assert val.m + val.m == val.m;
        outVal.m := outVal.m + val.m;
      }
      m := m[key := outVal];
      OneChanged(key);
    }

    /** A map that both tables have is the map of the same feature in both. */
    ghost predicate Aligned(out: ElementTable<V>)
      reads this, out
    {
      forall k, l :: k in m && l in out.m && m[k] != null && m[k] == out.m[l] ==> k == l
    }


    /** One feature of this table is merged into the other table; this one keeps its content. */
    method MergeFeature(out: ElementTable<V>, key: string)
      requires key in m && this != out && out.Valid() && Aligned(out)
      modifies out, out.Maps()
      ensures out.Valid() && Aligned(out) && Content() == old(Content())
      ensures forall o :: o in out.Maps() ==> o in old(out.Maps()) || fresh(o)
      ensures out.Content() ==
        old(out.Content())[key := MergedElements(At(old(out.Content()), key), At(old(Content()), key))]
    {
      assert forall k :: k in m && k != key && m[k] != null ==> !(key in out.m && m[k] == out.m[key]);
      out.MergeElements(key, m[key]);
      assert forall k :: k in m && m[k] != null ==> m[k].m == old(m[k].m);
    }

    /** One turn of the loop below. */
    method MergeKey(out: ElementTable<V>, key: string, ghost base: Table<V>, ghost mine: Table<V>,
        ghost done: set<string>)
      requires key in m && this != out && out.Valid() && Aligned(out)
      requires Content() == mine && out.Content() == MergedOn(base, mine, done) && key !in done
      modifies out, out.Maps()
      ensures out.Valid() && Aligned(out) && Content() == mine
      ensures forall o :: o in out.Maps() ==> o in old(out.Maps()) || fresh(o)
      ensures out.Content() == MergedOn(base, mine, done + {key})
    {
      MergedOnNext(base, mine, done, key);
      MergeFeature(out, key);
    }

    lemma ApartAligned(out: ElementTable<V>)
      requires Maps() !! out.Maps()
      ensures Aligned(out)
    {
      assert forall k :: k in m && m[k] != null ==> m[k] in Maps();
      assert forall k :: k in out.m && out.m[k] != null ==> out.m[k] in out.Maps();
    }

    method MergeInto(out: ElementTable<V>)
      requires this != out && out.Valid() && Aligned(out)
      modifies out, out.Maps()
      ensures out.Valid() && Aligned(out) && Content() == old(Content())
      ensures forall o :: o in out.Maps() ==> o in old(out.Maps()) || fresh(o)
      ensures out.Content() == MergedOn(old(out.Content()), old(Content()), old(Content()).Keys)
    {
      ghost var base, mine := out.Content(), Content();
      var todo := m.Keys;
      while todo != {}
        invariant todo <= m.Keys && out.Valid() && Aligned(out)
        invariant forall o :: o in out.Maps() ==> o in old(out.Maps()) || fresh(o)
        invariant Content() == mine
        invariant out.Content() == MergedOn(base, mine, m.Keys - todo)
      {
        var key :| key in todo;
        assert m.Keys - todo + {key} == m.Keys - (todo - {key});
        MergeKey(out, key, base, mine, m.Keys - todo);
        todo := todo - {key};
      }
      assert m.Keys - todo == m.Keys;
    }
  }

  // ---- Instances ----

  ghost function Objects(xs: seq<Elements<string>>): set<Elements<string>> {
    set x | x in xs
  }

  /** The attributes of each instance of a list. */
  ghost function Values(xs: seq<Elements<string>>): (r: seq<Attrs>)
    reads Objects(xs)
    ensures |r| == |xs| && forall i :: 0 <= i < |xs| ==> r[i] == xs[i].m
  {
    seq(|xs|, i requires 0 <= i < |xs| reads Objects(xs) => xs[i].m)
  }

  type InstanceLists = map<string, seq<Attrs>>

  function ListAt(t: InstanceLists, k: string): seq<Attrs> {
    if k in t then t[k] else []
  }

  function AppendedOn(base: InstanceLists, from: InstanceLists, done: set<string>): InstanceLists {
    map k | k in base.Keys + done :: if k in done then ListAt(base, k) + ListAt(from, k) else ListAt(base, k)
  }

  lemma AppendedOnNext(base: InstanceLists, from: InstanceLists, done: set<string>, key: string)
    requires key !in done
    ensures AppendedOn(base, from, done)[key := ListAt(AppendedOn(base, from, done), key) + ListAt(from, key)] ==
      AppendedOn(base, from, done + {key})
  {
  }

  lemma AppendedOnNothing(from: InstanceLists)
    ensures AppendedOn(map[], from, from.Keys) == from
  {
    assert forall k :: k in from ==> [] + from[k] == from[k];
  }

  type InstanceMaps = map<string, seq<Elements<string>>>

  function MapsAt(m: InstanceMaps, k: string): seq<Elements<string>> {
    if k in m then m[k] else []
  }

  ghost function MapsOf(m: InstanceMaps): set<Elements<string>> {
    set k, x | k in m && x in m[k] :: x
  }

  ghost function ContentOf(m: InstanceMaps): (t: InstanceLists)
    reads MapsOf(m)
    ensures t.Keys == m.Keys
    ensures forall k :: k in m ==> t[k] == Values(m[k])
  {
    map k | k in m :: Values(m[k])
  }

  lemma PutMaps(m: InstanceMaps, key: string, xs: seq<Elements<string>>)
    ensures MapsOf(m[key := xs]) <= MapsOf(m) + Objects(xs)
  {
  }

  lemma PutContent(m: InstanceMaps, key: string, xs: seq<Elements<string>>)
    ensures ContentOf(m[key := xs]) == ContentOf(m)[key := Values(xs)]
  {
  }

  lemma ValuesConcat(xs: seq<Elements<string>>, ys: seq<Elements<string>>)
    ensures Values(xs + ys) == Values(xs) + Values(ys)
  {
  }

  /** Instances whose maps did not change have their old content. */
  twostate lemma ContentKept(m: InstanceMaps)
    requires forall x :: x in MapsOf(m) ==> old(allocated(x)) && x.m == old(x.m)
    ensures ContentOf(m) == old(ContentOf(m))
  {
    forall k | k in m ensures Values(m[k]) == old(Values(m[k])) {
      assert forall x :: x in m[k] ==> x in MapsOf(m);
      assert forall i :: 0 <= i < |m[k]| ==> m[k][i] in m[k];
    }
  }

  /** Copies of the instances, each with a map of its own. */
  method CopyInstances(xs: seq<Elements<string>>) returns (copies: seq<Elements<string>>)
    ensures Values(copies) == old(Values(xs))
    ensures fresh(Objects(copies))
  {
    copies := [];
    for i := 0 to |xs|
      invariant |copies| == i && forall j :: 0 <= j < i ==> copies[j].m == old(xs[j].m)
      invariant fresh(Objects(copies))
    {
      var copy := new Elements<string>(xs[i].m);
      assert Objects(copies + [copy]) == Objects(copies) + {copy};
      copies := copies + [copy];
    }
  }

  /** `map[string]InstanceFeatureSet`. */
  class InstanceTable {
    var m: InstanceMaps

    constructor ()
      ensures m == map[]
    {
      m := map[];
    }

    ghost function Maps(): set<object>
      reads this
    {
      MapsOf(m)
    }

    ghost function Content(): (t: InstanceLists)
      reads this, Maps()
      ensures t.Keys == m.Keys
    {
      ContentOf(m)
    }

    /** Copies with these values were appended to the list of `key`. */
    twostate lemma Appended(new before: InstanceMaps, new key: string, new copies: seq<Elements<string>>,
        new vals: seq<Attrs>)
      requires before == old(m) && m == before[key := MapsAt(before, key) + copies]
      requires fresh(Objects(copies)) && Values(copies) == vals
      requires forall x :: x in MapsOf(before) ==> old(allocated(x)) && x.m == old(x.m)
      ensures forall o :: o in Maps() ==> o in old(Maps()) || fresh(o)
      ensures Content() == old(Content())[key := ListAt(old(Content()), key) + vals]
    {
      var outVal := MapsAt(before, key);
      ContentKept(before);
      PutMaps(before, key, outVal + copies);
      PutContent(before, key, outVal + copies);
      ValuesConcat(outVal, copies);
      assert forall x :: x in outVal + copies ==> x in MapsOf(before) || x in Objects(copies);
    }

    /** `MergeInto` of one list of instances: copies of the given ones are appended. */
    method MergeInstances(key: string, val: seq<Elements<string>>)
      modifies this
      ensures forall o :: o in Maps() ==> o in old(Maps()) || fresh(o)
      ensures Content() == old(Content())[key := ListAt(old(Content()), key) + old(Values(val))]
    {
      ghost var before, vals := m, Values(val);
      var copies := CopyInstances(val);
      m := m[key := MapsAt(m, key) + copies];
      Appended(before, key, copies, vals);
    }

    method MergeInto(out: InstanceTable)
      requires this != out
      modifies out
      ensures forall o :: o in out.Maps() ==> o in old(out.Maps()) || fresh(o)
      ensures out.Content() == AppendedOn(old(out.Content()), old(Content()), old(Content()).Keys)
    {
      ghost var base, mine := out.Content(), Content();
      var todo := m.Keys;
      while todo != {}
        invariant todo <= m.Keys
        invariant forall o :: o in out.Maps() ==> o in old(out.Maps()) || fresh(o)
        invariant out.Content() == AppendedOn(base, mine, m.Keys - todo)
      {
        var key :| key in todo;
        AppendedOnNext(base, mine, m.Keys - todo, key);
        assert m.Keys - todo + {key} == m.Keys - (todo - {key});
        ContentKept(m);
        assert Values(m[key]) == ListAt(mine, key);
        out.MergeInstances(key, m[key]);
        todo := todo - {key};
      }
      assert m.Keys - todo == m.Keys;
    }
  }

  // ---- Whole specs ----

  function MergedFlagSet(into: Option<set<string>>, from: Option<set<string>>): Option<set<string>> {
    if from.None? then into else Some((if into.Some? then into.value else {}) + from.value)
  }

  /** The value of two sets of features merged, the second taking precedence. */
  function Merged(into: Features, from: Features): Features {
    Features(
      map k | k in into.flags.Keys + from.flags.Keys :: MergedFlagSet(FlagsAt(into, k), FlagsAt(from, k)),
      map k | k in into.attributes.Keys + from.attributes.Keys :: MergedElements(AttrsAt(into, k), AttrsAt(from, k)),
      map k | k in into.instances.Keys + from.instances.Keys :: InstancesAt(into, k) + InstancesAt(from, k))
  }

  /** `v1alpha1.Nil`. */
  datatype Nil = Nil

  function FlagSets(t: Table<Nil>): map<string, Option<set<string>>> {
    map k | k in t :: Flags(t[k])
  }

  function Flags(elements: Option<map<string, Nil>>): Option<set<string>> {
    if elements.None? then None else Some(elements.value.Keys)
  }

  lemma FlagsOf(into: Option<map<string, Nil>>, from: Option<map<string, Nil>>)
    ensures Flags(MergedElements(into, from)) == MergedFlagSet(Flags(into), Flags(from))
  {
    if from.Some? {
      var base := if into.Some? then into.value else map[];
      assert (base + from.value).Keys == base.Keys + from.value.Keys;
      assert into.None? ==> base.Keys == {};
    }
  }

  lemma MergedFlags(s: Table<Nil>, t: Table<Nil>)
    ensures FlagSets(MergedOn(s, t, t.Keys)) ==
      map k | k in s.Keys + t.Keys :: MergedFlagSet(Flags(At(s, k)), Flags(At(t, k)))
  {
    forall k | k in s.Keys + t.Keys
      ensures Flags(MergedElements(At(s, k), At(t, k))) == MergedFlagSet(Flags(At(s, k)), Flags(At(t, k)))
    {
      FlagsOf(At(s, k), At(t, k));
    }
  }

  lemma MergedAttributes(s: Table<string>, t: Table<string>)
    ensures MergedOn(s, t, t.Keys) == map k | k in s.Keys + t.Keys :: MergedElements(At(s, k), At(t, k))
  {
  }

  lemma MergedInstances(s: InstanceLists, t: InstanceLists)
    ensures AppendedOn(s, t, t.Keys) == map k | k in s.Keys + t.Keys :: ListAt(s, k) + ListAt(t, k)
  {
    assert forall k :: k in s && k !in t ==> s[k] + [] == s[k];
  }

  lemma SameFlags(s: Table<Nil>, t: Table<Nil>)
    ensures var a, b := Features(FlagSets(s), map[], map[]), Features(FlagSets(t), map[], map[]);
      Merged(a, b).flags == map k | k in s.Keys + t.Keys :: MergedFlagSet(Flags(At(s, k)), Flags(At(t, k)))
  {
    assert FlagSets(s).Keys == s.Keys && FlagSets(t).Keys == t.Keys;
  }

  /** What the maps of a spec hold. */
  datatype SpecValue = SpecValue(flags: Table<Nil>, attributes: Table<string>, instances: InstanceLists,
      labels: Attrs) {
    function Features(): Features {
      FeatureApi.Features(FlagSets(flags), attributes, instances)
    }

    function MergedWith(from: SpecValue): SpecValue {
      SpecValue(
        MergedOn(flags, from.flags, from.flags.Keys), MergedOn(attributes, from.attributes, from.attributes.Keys),
        AppendedOn(instances, from.instances, from.instances.Keys), labels + from.labels)
    }

    lemma MergedFeatures(from: SpecValue)
      ensures MergedWith(from).Features() == Merged(Features(), from.Features())
    {
      MergedFlags(flags, from.flags);
      MergedAttributes(attributes, from.attributes);
      MergedInstances(instances, from.instances);
      SameFlags(flags, from.flags);
    }
  }

  const NO_FEATURES := SpecValue(map[], map[], map[], map[])

  lemma MergedIntoNothing(v: SpecValue)
    ensures NO_FEATURES.MergedWith(v) == v
  {
    MergedOnNothing(v.flags);
    MergedOnNothing(v.attributes);
    AppendedOnNothing(v.instances);
    assert map[] + v.labels == v.labels;
  }

  class NodeFeatureSpec {
    const flags: ElementTable<Nil>
    const attributes: ElementTable<string>
    const instances: InstanceTable
    var labels: Elements?<string>

    /** Everything that belongs to the spec. */
    ghost var repr: set<object>

    /** `NewNodeFeatureSpec`, with no labels yet. */
    constructor ()
      ensures Valid() && Value() == NO_FEATURES && fresh(repr)
    {
      flags := new ElementTable<Nil>();
      attributes := new ElementTable<string>();
      instances := new InstanceTable();
      labels := null;
      new;
      repr := {this, flags, attributes, instances};
    }

    ghost function LabelMap(): set<object>
      reads this
    {
      if labels == null then {} else {labels}
    }

    ghost predicate Closed()
      reads this, flags, attributes, instances
    {
      && this in repr && flags in repr && attributes in repr && instances in repr
      && flags.Maps() <= repr && attributes.Maps() <= repr && instances.Maps() <= repr && LabelMap() <= repr
    }

    /** No map is in two places. */
    ghost predicate Valid()
      reads this, flags, attributes, instances
    {
      && Closed() && flags.Valid() && attributes.Valid()
      && flags.Maps() !! attributes.Maps() && flags.Maps() !! instances.Maps() && flags.Maps() !! LabelMap()
      && attributes.Maps() !! instances.Maps() && attributes.Maps() !! LabelMap() && instances.Maps() !! LabelMap()
    }

    ghost function Value(): SpecValue
      requires Closed()
      reads this, flags, attributes, instances, repr
    {
      SpecValue(flags.Content(), attributes.Content(), instances.Content(), NilMap(labels))
    }

    // What a change of one part means for the whole, when its maps are old ones of that part or new.

    twostate lemma FlagsChanged()
      requires old(Valid()) && flags.Valid() && unchanged(attributes) && unchanged(instances) && labels == old(labels)
      requires unchanged(old(attributes.Maps())) && unchanged(old(instances.Maps())) && unchanged(old(LabelMap()))
      requires forall o :: o in flags.Maps() ==> o in old(flags.Maps()) || fresh(o)
      requires repr == old(repr) + flags.Maps()
      ensures Valid() && Value() == old(Value()).(flags := flags.Content()) && fresh(repr - old(repr))
    {
      ContentKept(instances.m);
    }

    twostate lemma AttributesChanged()
      requires old(Valid()) && attributes.Valid() && unchanged(flags) && unchanged(instances) && labels == old(labels)
      requires unchanged(old(flags.Maps())) && unchanged(old(instances.Maps())) && unchanged(old(LabelMap()))
      requires forall o :: o in attributes.Maps() ==> o in old(attributes.Maps()) || fresh(o)
      requires repr == old(repr) + attributes.Maps()
      ensures Valid() && Value() == old(Value()).(attributes := attributes.Content()) && fresh(repr - old(repr))
    {
      ContentKept(instances.m);
    }

    twostate lemma InstancesChanged()
      requires old(Valid()) && unchanged(flags) && unchanged(attributes) && labels == old(labels)
      requires unchanged(old(flags.Maps())) && unchanged(old(attributes.Maps())) && unchanged(old(LabelMap()))
      requires forall o :: o in instances.Maps() ==> o in old(instances.Maps()) || fresh(o)
      requires repr == old(repr) + instances.Maps()
      ensures Valid() && Value() == old(Value()).(instances := instances.Content()) && fresh(repr - old(repr))
    {
    }

    twostate lemma LabelsChanged()
      requires old(Valid()) && unchanged(flags) && unchanged(attributes) && unchanged(instances)
      requires unchanged(old(flags.Maps())) && unchanged(old(attributes.Maps())) && unchanged(old(instances.Maps()))
      requires forall o :: o in LabelMap() ==> o in old(LabelMap()) || fresh(o)
      requires repr == old(repr) + LabelMap()
      ensures Valid() && Value() == old(Value()).(labels := NilMap(labels)) && fresh(repr - old(repr))
    {
      ContentKept(instances.m);
    }

    /** A spec none of whose objects changed is as it was. */
    twostate lemma Kept()
      requires old(Closed()) && unchanged(old(repr))
      ensures Closed() && Value() == old(Value())
    {
      ContentKept(instances.m);
    }

    method MergeFlags(out: NodeFeatureSpec)
      requires Closed() && out.Valid() && repr !! out.repr
      modifies out.repr
      ensures var v, w := old(out.Value()), old(Value());
        out.Valid() && out.Value() == v.(flags := MergedOn(v.flags, w.flags, w.flags.Keys))
      ensures old(out.repr) <= out.repr && fresh(out.repr - old(out.repr))
    {
      flags.ApartAligned(out.flags);
      flags.MergeInto(out.flags);
      ghost var merged := out.flags.Content();
      out.repr := out.repr + out.flags.Maps();
      assert out.flags.Content() == merged;
      out.FlagsChanged();
    }

    method MergeAttributes(out: NodeFeatureSpec)
      requires Closed() && out.Valid() && repr !! out.repr
      modifies out.repr
      ensures var v, w := old(out.Value()), old(Value());
        out.Valid() && out.Value() == v.(attributes := MergedOn(v.attributes, w.attributes, w.attributes.Keys))
      ensures old(out.repr) <= out.repr && fresh(out.repr - old(out.repr))
    {
      attributes.ApartAligned(out.attributes);
      attributes.MergeInto(out.attributes);
      ghost var merged := out.attributes.Content();
      out.repr := out.repr + out.attributes.Maps();
      assert out.attributes.Content() == merged;
      out.AttributesChanged();
    }

    method MergeInstances(out: NodeFeatureSpec)
      requires Closed() && out.Valid() && repr !! out.repr
      modifies out.repr
      ensures var v, w := old(out.Value()), old(Value());
        out.Valid() && out.Value() == v.(instances := AppendedOn(v.instances, w.instances, w.instances.Keys))
      ensures old(out.repr) <= out.repr && fresh(out.repr - old(out.repr))
    {
      instances.MergeInto(out.instances);
      ghost var merged := out.instances.Content();
      out.repr := out.repr + out.instances.Maps();
      assert out.instances.Content() == merged;
      out.InstancesChanged();
    }

    method MergeLabels(out: NodeFeatureSpec)
      requires Closed() && out.Valid() && repr !! out.repr
      modifies out.repr
      ensures var v, w := old(out.Value()), old(Value());
        out.Valid() && out.Value() == v.(labels := v.labels + w.labels)
      ensures old(out.repr) <= out.repr && fresh(out.repr - old(out.repr))
    {
      CopyLabels(out);
      out.repr := out.repr + out.LabelMap();
      out.LabelsChanged();
    }

    method CopyLabels(out: NodeFeatureSpec)
      requires this != out && LabelMap() !! out.LabelMap()
      modifies out`labels, out.LabelMap()
      ensures NilMap(out.labels) == old(NilMap(out.labels)) + old(NilMap(labels))
      ensures forall o :: o in out.LabelMap() ==> o in old(out.LabelMap()) || fresh(o)
    {
      if labels != null {
        if out.labels == null { out.labels := new Elements<string>(map[]); }
        out.labels.m := out.labels.m + labels.m;
      }
    }

    /**
     `NodeFeatureSpec.MergeInto`: writes into the maps of the target, takes none of the receiver's maps
     into it, and leaves the receiver as it is.
     */
    method MergeInto(out: NodeFeatureSpec)
      requires Closed() && out.Valid() && repr !! out.repr
      modifies out.repr
      ensures out.Valid() && out.Value() == old(out.Value()).MergedWith(old(Value()))
      ensures old(out.repr) <= out.repr && fresh(out.repr - old(out.repr)) && repr !! out.repr
      ensures Closed() && Value() == old(Value()) && repr == old(repr)
    {
      MergeFlags(out);
      Kept();
      MergeAttributes(out);
      Kept();
      MergeInstances(out);
      Kept();
      MergeLabels(out);
      Kept();
    }

    /** `DeepCopy`: equal, and made of new objects throughout. */
    method DeepCopy() returns (copy: NodeFeatureSpec)
      requires Closed()
      ensures fresh(copy.repr) && copy.Valid() && copy.Value() == old(Value())
    {
      copy := new NodeFeatureSpec();
      Kept();
      MergedIntoNothing(Value());
      MergeInto(copy);
    }

    /** Other labels, in a map of their own, or none. */
    method SetLabels(given: Option<Attrs>)
      requires Valid()
      modifies this
      ensures Valid() && fresh(repr - old(repr))
      ensures Value() == old(Value()).(labels := if given.None? then map[] else given.value)
    {
      labels := null;
      if given.Some? { labels := new Elements<string>(given.value); }
      repr := repr + LabelMap();
      LabelsChanged();
    }
  }
}
