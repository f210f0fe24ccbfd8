/**
 Names with namespaces, and the annotations in which the master records what it owns on a node:
 `addNs`, `stringToNsNames` and the key lists that `updateNodeObject` writes
 (pkg/nfd-master/nfd-master.go).
 */
module Tracking {
  import opened Strings
  import opened Sorting
  import opened GoPath

  const FEATURE_NS := "feature.node.kubernetes.io"
  const ANNOTATION_NS := "nfd.node.kubernetes.io"

  /** `addNs`: prefix a name that has no namespace of its own. */
  function AddNs(src: string, ns: string): string {
    if '/' in src then src else JoinPath(ns, src)
  }

  function Added(ns: string): string -> string {
    name => AddNs(name, ns)
  }

  /** The names that a comma-separated list stands for. */
  function NsNames(cslist: string, ns: string): seq<string> {
    if cslist == "" then [] else Apply(Added(ns), Split(cslist, ','))
  }

  /** `stringToNsNames`: rewrites the split list element by element. */
  method StringToNsNames(cslist: string, ns: string) returns (names: seq<string>)
    ensures names == NsNames(cslist, ns)
  {
    names := [];
    if cslist != "" {
      names := Split(cslist, ',');
      ghost var given := names;
      for i := 0 to |names|
        invariant |names| == |given|
        invariant forall j :: 0 <= j < i ==> names[j] == AddNs(given[j], ns)
        invariant forall j :: i <= j < |names| ==> names[j] == given[j]
      {
        names := names[i := AddNs(names[i], ns)];
      }
      assert names == NsNames(cslist, ns);
    }
  }

  /** Some enumeration of a set, the same one every time. */
  ghost function SeqOf(s: set<string>): (r: seq<string>)
    ensures multiset(r) == multiset(s)
  {
    if s == {} then []
    else
      var x :| x in s;
      assert s == {x} + (s - {x});
      [x] + SeqOf(s - {x})
  }

  function Short(ns: string): string -> string {
    key => TrimPrefix(key, ns + "/")
  }

  /** The annotation value for a set of owned keys: default namespace dropped, sorted, comma-joined. */
  ghost function TrackingValue(keys: set<string>, ns: string): string {
    Join(SortStrings(Apply(Short(ns), SeqOf(keys))), ',')
  }

  /** A tracking list can carry this key and give it back. */
  predicate Trackable(key: string, ns: string) {
    && ',' !in key
    && if ns + "/" <= key then Segment(key[|ns| + 1..]) else '/' in key
  }

  ghost predicate AllTrackable(keys: set<string>, ns: string) {
    forall k :: k in keys ==> Trackable(k, ns)
  }

  predicate Namespace(ns: string) {
    Segment(ns) && ',' !in ns
  }

  /** Collecting the keys in any order before sorting gives the same annotation value. */
  lemma TrackingValueOrder(keys: set<string>, ns: string, collected: seq<string>)
    requires multiset(collected) == multiset(keys)
    ensures Join(SortStrings(Apply(Short(ns), collected)), ',') == TrackingValue(keys, ns)
  {
    ApplyPermutation(Short(ns), collected, SeqOf(keys));
    SortStringsCanonical(Apply(Short(ns), collected), Apply(Short(ns), SeqOf(keys)));
  }

  /** Dropping the default namespace and adding it back is the identity on trackable keys only. */
  lemma ShortThenAdd(key: string, ns: string)
    requires Trackable(key, ns) && Namespace(ns)
    ensures AddNs(Short(ns)(key), ns) == key
    ensures Short(ns)(key) != "" && ',' !in Short(ns)(key)
  {
    if ns + "/" <= key {
      var name := key[|ns| + 1..];
      JoinName(ns, name);
      assert key == ns + "/" + name;
    }
  }

  lemma SortedShort(keys: set<string>, ns: string, i: nat)
    requires Namespace(ns) && AllTrackable(keys, ns)
    requires i < |SortStrings(Apply(Short(ns), SeqOf(keys)))|
    ensures var t := SortStrings(Apply(Short(ns), SeqOf(keys)))[i]; t != "" && ',' !in t
  {
    var all := SeqOf(keys);
    var short := Apply(Short(ns), all);
    SameElements(SortStrings(short), short);
    var t := SortStrings(short)[i];
    assert t in short;
    var j :| 0 <= j < |short| && short[j] == t;
    assert all[j] in multiset(all);
    ShortThenAdd(all[j], ns);
  }

  /** Parsing a joined list of non-empty, comma-free names adds the namespace to each. */
  lemma JoinedNames(names: seq<string>, ns: string)
    requires names != [] && FreeOf(names, ',') && names[0] != ""
    ensures NsNames(Join(names, ','), ns) == Apply(Added(ns), names)
  {
    SplitJoin(names, ',');
    assert Join(names, ',') != "";
  }

  /** Dropping the default namespace from keys and adding it back gives the keys. */
  lemma ShortThenAddAll(keys: seq<string>, ns: string)
    requires Namespace(ns) && forall i :: 0 <= i < |keys| ==> Trackable(keys[i], ns)
    ensures Apply(Added(ns), Apply(Short(ns), keys)) == keys
  {
    forall i | 0 <= i < |keys| ensures Apply(Added(ns), Apply(Short(ns), keys))[i] == keys[i] {
      ShortThenAdd(keys[i], ns);
    }
  }

  lemma TrackableSeq(keys: set<string>, ns: string)
    requires AllTrackable(keys, ns)
    ensures forall i :: 0 <= i < |SeqOf(keys)| ==> Trackable(SeqOf(keys)[i], ns)
  {
    forall i | 0 <= i < |SeqOf(keys)| ensures Trackable(SeqOf(keys)[i], ns) {
      assert SeqOf(keys)[i] in multiset(SeqOf(keys));
    }
  }

  /** Parsing a printed tracking annotation gives back exactly the owned keys, each once. */
  lemma TrackingRoundTrip(keys: set<string>, ns: string)
    requires Namespace(ns) && AllTrackable(keys, ns)
    ensures multiset(NsNames(TrackingValue(keys, ns), ns)) == multiset(keys)
  {
    var all := SeqOf(keys);
    var short := Apply(Short(ns), all);
    var sorted := SortStrings(short);
    SameElements(sorted, short);
    if sorted == [] {
      assert all == [];
    } else {
      forall i | 0 <= i < |sorted| ensures sorted[i] != "" && ',' !in sorted[i] {
        SortedShort(keys, ns, i);
      }
      JoinedNames(sorted, ns);
      ApplyPermutation(Added(ns), sorted, short);
      TrackableSeq(keys, ns);
      ShortThenAddAll(all, ns);
    }
  }

  // ---- Which keys survive ----

  lemma JoinDots(ns: string)
    requires Segment(ns)
    ensures JoinPath(ns, ".") == ns && JoinPath(ns, "..") == "."
  {
    forall d | d == "." || d == ".." ensures JoinPath(ns, d) == if d == "." then ns else "." {
      assert Join([ns, d], '/') == ns + "/" + d by { assert [ns, d][1..] == [d]; }
      SplitJoin([ns, d], '/');
      assert [ns, d][1..] == [d] && [d][1..] == [];
      assert [] + [ns] == [ns] && [ns][..0] == [];
      assert CleanParts([], false, [ns, d]) == CleanParts([ns], false, [d]);
      assert CleanParts([ns], false, [d]) == CleanStep([ns], false, d);
    }
  }

  lemma UntrackableLost(key: string, ns: string)
    requires Namespace(ns) && !Trackable(key, ns) && ',' !in key && Short(ns)(key) != ""
    ensures AddNs(Short(ns)(key), ns) != key
  {
    var name := Short(ns)(key);
    JoinDots(ns);
    if ns + "/" <= key {
      assert key == ns + "/" + name;
    } else if Segment(key) {
      JoinName(ns, key);
    }
  }

  lemma ShortKeepsComma(key: string, ns: string)
    requires Namespace(ns) && ',' in key
    ensures ',' in Short(ns)(key)
  {
    if ns + "/" <= key {
      assert key == (ns + "/") + key[|ns| + 1..];
    }
  }

  /** A single key comes back from its annotation exactly when it is trackable. */
  lemma TrackableExactly(key: string, ns: string)
    requires Namespace(ns)
    ensures NsNames(TrackingValue({key}, ns), ns) == [key] <==> Trackable(key, ns)
  {
    var name := Short(ns)(key);
    assert |multiset({key})| == 1;
    assert |SeqOf({key})| == |multiset(SeqOf({key}))| == 1;
    assert SeqOf({key})[0] in multiset(SeqOf({key}));
    assert SeqOf({key}) == [key];
    assert Apply(Short(ns), [key]) == [name];
    assert [name][1..] == [];
    assert SortStrings([name]) == [name];
    assert TrackingValue({key}, ns) == name;
    if Trackable(key, ns) {
      ShortThenAdd(key, ns);
      SplitJoin([name], ',');
    } else if ',' in key {
      ShortKeepsComma(key, ns);
      SplitFree(name, ',');
    } else if name != "" {
      assert ',' !in name;
      SplitJoin([name], ',');
      UntrackableLost(key, ns);
    }
  }

  /** The names in a tracking annotation ascend. */
  lemma TrackingSorted(keys: set<string>, ns: string)
    requires Namespace(ns) && AllTrackable(keys, ns)
    ensures Ascending(Split(TrackingValue(keys, ns), ','))
  {
    var sorted := SortStrings(Apply(Short(ns), SeqOf(keys)));
    SortStringsAscending(Apply(Short(ns), SeqOf(keys)));
    forall i | 0 <= i < |sorted| ensures ',' !in sorted[i] {
      SortedShort(keys, ns, i);
    }
    if sorted != [] {
      SplitJoin(sorted, ',');
    }
  }
}
