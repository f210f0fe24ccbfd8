/**
 Building and applying JSON Patch operations on a node.
 Paths follow sections 3 and 4 of RFC 6901, operations sections 4.1 to 4.3 of RFC 6902.
 */
module JsonPatch {
  import opened Strings
  import opened GoPath
  import opened Sorting

  // ---- The patched document ----

  /** The string maps of a node object that the master patches. */
  datatype Container = Labels | Annotations | Capacity | Allocatable

  datatype Node = Node(
    labels: map<string, string>,
    annotations: map<string, string>,
    capacity: map<string, string>,
    allocatable: map<string, string>)
  {
    function Get(c: Container): map<string, string> {
      match c
      case Labels => labels
      case Annotations => annotations
      case Capacity => capacity
      case Allocatable => allocatable
    }

    function With(c: Container, m: map<string, string>): (n: Node)
      ensures forall d :: n.Get(d) == if d == c then m else Get(d)
    {
      match c
      case Labels => this.(labels := m)
      case Annotations => this.(annotations := m)
      case Capacity => this.(capacity := m)
      case Allocatable => this.(allocatable := m)
    }
  }

  datatype Target = Target(container: Container, key: string)

  function Root(c: Container): string {
    if c == Labels || c == Annotations then "metadata" else "status"
  }

  function Leaf(c: Container): string {
    match c
    case Labels => "labels"
    case Annotations => "annotations"
    case Capacity => "capacity"
    case Allocatable => "allocatable"
  }

  function Tokens(c: Container): (ts: seq<string>)
    ensures |ts| == 2
  {
    [Root(c), Leaf(c)]
  }

  /** "/metadata/labels", "/metadata/annotations", "/status/capacity" or "/status/allocatable". */
  function BasePath(c: Container): string {
    "/" + Root(c) + "/" + Leaf(c)
  }

  // ---- Paths ----

  /** `strings.ReplaceAll(key, "/", "~1")`; a `~` in the key is left alone. */
  function Escape(key: string): (t: string)
    ensures '/' !in t
    ensures key != "" ==> t != ""
  {
    if key == "" then ""
    else if key[0] == '/' then "~1" + Escape(key[1..])
    else [key[0]] + Escape(key[1..])
  }

  /** Section 4 of RFC 6901: `~1` is `/`, `~0` is `~`, and any other `~` is not a pointer. */
  function Unescape(t: string): Option<string>
    decreases |t|
  {
    if t == "" then Some("")
    else if t[0] != '~' then
      var rest := Unescape(t[1..]);
      if rest.None? then None else Some([t[0]] + rest.value)
    else if |t| >= 2 && (t[1] == '0' || t[1] == '1') then
      var rest := Unescape(t[2..]);
      if rest.None? then None else Some([if t[1] == '1' then '/' else '~'] + rest.value)
    else None
  }

  datatype Patch = Patch(op: string, path: string, value: string)

  /** `utils.NewJsonPatch`. */
  function NewJsonPatch(verb: string, jsonpath: string, key: string, value: string): Patch {
    Patch(verb, JoinPath(jsonpath, Escape(key)), value)
  }

  /** The member of the node that a JSON Pointer names, if it is one the model knows. */
  function Resolve(path: string): Option<Target> {
    var ts := Split(path, '/');
    if |ts| != 4 || ts[0] != "" then None
    else
      var key := Unescape(ts[3]);
      if key.None? then None
      else if ts[1..3] == Tokens(Labels) then Some(Target(Labels, key.value))
      else if ts[1..3] == Tokens(Annotations) then Some(Target(Annotations, key.value))
      else if ts[1..3] == Tokens(Capacity) then Some(Target(Capacity, key.value))
      else if ts[1..3] == Tokens(Allocatable) then Some(Target(Allocatable, key.value))
      else None
  }

  /** Keys whose patch path leads back to them. */
  predicate Patchable(key: string) {
    key != "" && key != "." && key != ".." && '~' !in key
  }

  lemma {:induction false} UnescapeEscape(key: string)
    ensures Unescape(Escape(key)) == Some(key) <==> '~' !in key
    ensures Unescape(Escape(key)).Some? ==> |Unescape(Escape(key)).value| <= |key|
    decreases |key|, 1
  {
    if key == "" {
    } else {
      var t := Escape(key[1..]);
      assert key == [key[0]] + key[1..];
      UnescapeEscape(key[1..]);
      if key[0] == '/' {
        assert Escape(key)[2..] == t;
      } else if key[0] != '~' {
        assert Escape(key)[1..] == t;
      } else {
        TildeShrinks(key);
      }
    }
  }

  /** A leading `~` either spoils the pointer or swallows the character after it. */
  lemma {:induction false} TildeShrinks(key: string)
    requires key != "" && key[0] == '~'
    ensures Unescape(Escape(key)).Some? ==> |Unescape(Escape(key)).value| < |key|
    decreases |key|, 0
  {
    var t := Escape(key);
    assert t[1..] == Escape(key[1..]);
    if |key| >= 2 && (key[1] == '0' || key[1] == '1') {
      assert key[1..][1..] == key[2..];
      assert Escape(key[1..]) == [key[1]] + Escape(key[2..]);
      assert t[2..] == Escape(key[2..]);
      UnescapeEscape(key[2..]);
    } else if |key| >= 2 {
      assert t[1] == '~' || t[1] == key[1];
    }
  }

  lemma EscapeDots(key: string)
    ensures Escape(key) == "." <==> key == "."
    ensures Escape(key) == ".." <==> key == ".."
    ensures Escape(key) == "" <==> key == ""
  {
    if |key| >= 1 {
      if key[0] != '/' {
        assert Escape(key)[1..] == Escape(key[1..]);
        if |key| >= 2 {
          assert Escape(key[1..]) != "";
          if key[1] != '/' {
            assert Escape(key[1..])[1..] == Escape(key[1..][1..]);
          }
        }
        assert key == [key[0]] + key[1..];
        assert |key| >= 2 ==> key[1..] == [key[1]] + key[2..];
      }
    }
  }

  lemma RootSegment(c: Container)
    ensures Segment(Root(c))
  {
  }

  lemma LeafSegment(c: Container)
    ensures Segment(Leaf(c))
  {
  }

  lemma BasePathTokens(c: Container)
    ensures BasePath(c) == "/" + Join(Tokens(c), '/')
    ensures Segments(Tokens(c))
  {
    assert Tokens(c)[1..] == [Leaf(c)];
    RootSegment(c);
    LeafSegment(c);
  }

  lemma PatchPathPlain(c: Container, key: string)
    requires key != "" && key != "." && key != ".."
    ensures Split(JoinPath(BasePath(c), Escape(key)), '/') == [""] + Tokens(c) + [Escape(key)]
  {
    BasePathTokens(c);
    EscapeDots(key);
    var t := Escape(key);
    var parts := Tokens(c) + [t];
    JoinAppend(Tokens(c), t, '/');
    assert BasePath(c) + "/" + t == "/" + Join(parts, '/');
    forall i | 0 <= i < |parts| ensures Segment(parts[i]) {
      assert i < 2 ==> parts[i] == Tokens(c)[i];
    }
    CleanRooted(parts);
    assert [""] + parts == [""] + Tokens(c) + [t];
  }

  lemma TokensDistinct(c: Container, d: Container)
    ensures Tokens(c) == Tokens(d) <==> c == d
  {
    assert |Leaf(Labels)| == 6 && |Leaf(Annotations)| == 11 && |Leaf(Capacity)| == 8 && |Leaf(Allocatable)| == 11;
    assert Leaf(Annotations)[1] == 'n' && Leaf(Allocatable)[1] == 'l';
    assert Tokens(c)[1] == Leaf(c) && Tokens(d)[1] == Leaf(d);
  }

  lemma DottedParts(root: string, leaf: string, t: string)
    requires Segment(root) && Segment(leaf) && (t == "." || t == "..")
    ensures CleanParts([], true, ["", root, leaf, t]) == if t == "." then [root, leaf] else [root]
  {
    var p := ["", root, leaf, t];
    assert p[1..] == [root, leaf, t] && p[1..][1..] == [leaf, t] && p[1..][1..][1..] == [t];
    assert CleanParts([], true, p) == CleanParts([], true, [root, leaf, t]);
    assert [] + [root] == [root];
    assert CleanParts([], true, [root, leaf, t]) == CleanParts([root], true, [leaf, t]);
    assert [root] + [leaf] == [root, leaf];
    assert CleanParts([root], true, [leaf, t]) == CleanParts([root, leaf], true, [t]);
    var last := CleanStep([root, leaf], true, t);
    assert [t][1..] == [];
    assert CleanParts([root, leaf], true, [t]) == CleanParts(last, true, []) == last;
    assert [root, leaf][..1] == [root];
  }

  lemma Join4(a: string, b: string, t: string)
    ensures "/" + a + "/" + b + "/" + t == Join(["", a, b, t], '/')
  {
    JoinCons(b, [t], '/');
    assert [b] + [t] == [b, t];
    JoinCons(a, [b, t], '/');
    assert [a] + [b, t] == [a, b, t];
    JoinCons("", [a, b, t], '/');
    assert [""] + [a, b, t] == ["", a, b, t];
  }

  lemma DottedTail(root: string, leaf: string, t: string)
    requires Segment(root) && Segment(leaf) && (t == "." || t == "..")
    ensures |Split(JoinPath("/" + root + "/" + leaf, t), '/')| < 4
  {
    var all := ["", root, leaf, t];
    Join4(root, leaf, t);
    SplitJoin(all, '/');
    DottedParts(root, leaf, t);
    var kept := if t == "." then [root, leaf] else [root];
    CleanRooted(kept);
    var p := "/" + root + "/" + leaf + "/" + t;
    assert p[0] == '/';
  }

  /** `path.Join` with an empty, `.` or `..` last element drops it or climbs, so too few tokens are left. */
  lemma DottedPathLost(c: Container, key: string)
    requires key == "" || key == "." || key == ".."
    ensures |Split(JoinPath(BasePath(c), Escape(key)), '/')| < 4
  {
    EscapeDots(key);
    RootSegment(c);
    LeafSegment(c);
    if key == "" {
      BasePathTokens(c);
      CleanRooted(Tokens(c));
    } else {
      DottedTail(Root(c), Leaf(c), key);
    }
  }

  /** A patch leads back to the key it was made for exactly when the key is patchable. */
  lemma ResolveNewJsonPatch(verb: string, c: Container, key: string, value: string)
    ensures Resolve(NewJsonPatch(verb, BasePath(c), key, value).path) == Some(Target(c, key)) <==> Patchable(key)
  {
    if key == "" || key == "." || key == ".." {
      DottedPathLost(c, key);
    } else {
      PatchPathPlain(c, key);
      var ts := [""] + Tokens(c) + [Escape(key)];
      assert ts[1..3] == Tokens(c) && ts[3] == Escape(key);
      UnescapeEscape(key);
      TokensDistinct(c, Labels);
      TokensDistinct(c, Annotations);
      TokensDistinct(c, Capacity);
      TokensDistinct(c, Allocatable);
    }
  }

  // ---- Operations ----

  datatype Op = Remove | Replace(value: string) | Add(value: string)

  type Ops = map<Target, Op>

  /** Section 4.1 to 4.3 of RFC 6902: `remove` and `replace` need their target to exist. */
  function ApplyPatch(node: Node, p: Patch): Option<Node> {
    var t := Resolve(p.path);
    if t.None? then None
    else
      var Target(c, key) := t.value;
      var m := node.Get(c);
      if p.op == "add" then Some(node.With(c, m[key := p.value]))
      else if p.op == "replace" && key in m then Some(node.With(c, m[key := p.value]))
      else if p.op == "remove" && key in m then Some(node.With(c, m - {key}))
      else None
  }

  /** A patch document is applied as a whole or not at all. */
  function ApplyAll(node: Node, ps: seq<Patch>): Option<Node>
    decreases |ps|
  {
    if ps == [] then Some(node)
    else
      var next := ApplyPatch(node, ps[0]);
      if next.None? then None else ApplyAll(next.value, ps[1..])
  }

  function Render(t: Target, op: Op): Patch {
    match op
    case Remove => NewJsonPatch("remove", BasePath(t.container), t.key, "")
    case Replace(v) => NewJsonPatch("replace", BasePath(t.container), t.key, v)
    case Add(v) => NewJsonPatch("add", BasePath(t.container), t.key, v)
  }

  /** `ps` carries out the operations of `ops`, each once, in the order of `ts`. */
  ghost predicate Lists(ps: seq<Patch>, ts: seq<Target>, ops: Ops) {
    && Distinct(ts)
    && (forall t :: t in ts <==> t in ops)
    && |ps| == |ts|
    && (forall i :: 0 <= i < |ts| ==> ps[i] == Render(ts[i], ops[ts[i]]))
  }

  /** `ps` carries out the operations of `ops`, each once. */
  ghost predicate Carries(ps: seq<Patch>, ops: Ops) {
    exists ts :: Lists(ps, ts, ops)
  }

  ghost predicate PatchableTargets(ops: Ops) {
    forall t :: t in ops ==> Patchable(t.key)
  }

  predicate AppliesAt(node: Node, t: Target, op: Op) {
    op.Add? || t.key in node.Get(t.container)
  }

  ghost predicate Applicable(node: Node, ops: Ops) {
    forall t :: t in ops ==> AppliesAt(node, t, ops[t])
  }

  function OpKeys(ops: Ops, c: Container): set<string> {
    set t | t in ops && t.container == c :: t.key
  }

  function EffectOn(m: map<string, string>, c: Container, ops: Ops): map<string, string> {
    map k | k in m.Keys + OpKeys(ops, c) && !(Target(c, k) in ops && ops[Target(c, k)].Remove?) ::
      if Target(c, k) in ops then ops[Target(c, k)].value else m[k]
  }

  /** The node with every operation of `ops` carried out. */
  function Effect(node: Node, ops: Ops): Node {
    Node(
      EffectOn(node.labels, Labels, ops),
      EffectOn(node.annotations, Annotations, ops),
      EffectOn(node.capacity, Capacity, ops),
      EffectOn(node.allocatable, Allocatable, ops))
  }

  lemma RenderResolves(t: Target, op: Op)
    requires Patchable(t.key)
    ensures Resolve(Render(t, op).path) == Some(t)
  {
    match op {
      case Remove => ResolveNewJsonPatch("remove", t.container, t.key, "");
      case Replace(v) => ResolveNewJsonPatch("replace", t.container, t.key, v);
      case Add(v) => ResolveNewJsonPatch("add", t.container, t.key, v);
    }
  }

  lemma EffectOnOne(m: map<string, string>, c: Container, t: Target, op: Op)
    ensures c != t.container ==> EffectOn(m, c, map[t := op]) == m
    ensures c == t.container ==>
      EffectOn(m, c, map[t := op]) == if op.Remove? then m - {t.key} else m[t.key := op.value]
  {
    assert OpKeys(map[t := op], c) == if c == t.container then {t.key} else {};
  }

  lemma EffectOne(node: Node, t: Target, op: Op)
    ensures Effect(node, map[t := op]) ==
      var m := node.Get(t.container);
      node.With(t.container, if op.Remove? then m - {t.key} else m[t.key := op.value])
  {
    EffectOnOne(node.labels, Labels, t, op);
    EffectOnOne(node.annotations, Annotations, t, op);
    EffectOnOne(node.capacity, Capacity, t, op);
    EffectOnOne(node.allocatable, Allocatable, t, op);
  }

  lemma ApplyRendered(node: Node, t: Target, op: Op)
    requires Patchable(t.key)
    ensures ApplyPatch(node, Render(t, op)) ==
      if AppliesAt(node, t, op) then Some(Effect(node, map[t := op])) else None
  {
    RenderResolves(t, op);
    EffectOne(node, t, op);
  }

  lemma OpKeysAt(ops: Ops, c: Container, k: string)
    ensures k in OpKeys(ops, c) <==> Target(c, k) in ops
  {
    if Target(c, k) in ops {
      assert Target(c, k).key == k;
    }
  }

  lemma EffectOnAt(m: map<string, string>, c: Container, ops: Ops, k: string)
    ensures var t, m' := Target(c, k), EffectOn(m, c, ops);
      if t !in ops then (k in m' <==> k in m) && (k in m ==> m'[k] == m[k])
      else (k in m' <==> !ops[t].Remove?) && (k in m' ==> m'[k] == ops[t].value)
  {
    OpKeysAt(ops, c, k);
  }

  /** What happens to one container depends only on the operations that target it. */
  lemma EffectOnSame(m: map<string, string>, c: Container, a: Ops, b: Ops)
    requires forall k :: Target(c, k) in a <==> Target(c, k) in b
    requires forall k :: Target(c, k) in a ==> a[Target(c, k)] == b[Target(c, k)]
    ensures EffectOn(m, c, a) == EffectOn(m, c, b)
  {
    var ma, mb := EffectOn(m, c, a), EffectOn(m, c, b);
    forall k ensures (k in ma <==> k in mb) && (k in ma ==> ma[k] == mb[k]) {
      EffectOnAt(m, c, a, k);
      EffectOnAt(m, c, b, k);
    }
  }

  lemma EffectOnNone(m: map<string, string>, c: Container, ops: Ops)
    requires forall k :: Target(c, k) !in ops
    ensures EffectOn(m, c, ops) == m
  {
    EffectOnSame(m, c, ops, map[]);
    assert OpKeys(map[], c) == {};
  }

  lemma EffectOnStep(m: map<string, string>, c: Container, t: Target, ops: Ops)
    requires t in ops
    ensures EffectOn(EffectOn(m, c, map[t := ops[t]]), c, ops - {t}) == EffectOn(m, c, ops)
  {
    var one := map[t := ops[t]];
    var m1 := EffectOn(m, c, one);
    var m2, m3 := EffectOn(m1, c, ops - {t}), EffectOn(m, c, ops);
    forall k ensures (k in m2 <==> k in m3) && (k in m2 ==> m2[k] == m3[k]) {
      EffectOnAt(m, c, one, k);
      EffectOnAt(m1, c, ops - {t}, k);
      EffectOnAt(m, c, ops, k);
    }
  }

  lemma ListsTail(ps: seq<Patch>, ts: seq<Target>, ops: Ops)
    requires ps != [] && Lists(ps, ts, ops)
    ensures ts[0] in ops && ps[0] == Render(ts[0], ops[ts[0]])
    ensures Lists(ps[1..], ts[1..], ops - {ts[0]})
  {
    var rest, us := ops - {ts[0]}, ts[1..];
    assert ts[0] in ts;
    DistinctTail(ts);
    assert forall t :: t in us <==> t in rest;
    forall i | 0 <= i < |us| ensures ps[1..][i] == Render(us[i], rest[us[i]]) {
      assert us[i] in us;
      assert us[i] == ts[i + 1];
    }
  }

  lemma EffectGet(node: Node, ops: Ops, c: Container)
    ensures Effect(node, ops).Get(c) == EffectOn(node.Get(c), c, ops)
  {
  }

  lemma AppliesElsewhere(node: Node, t: Target, op: Op, u: Target, op': Op)
    requires u != t
    ensures AppliesAt(Effect(node, map[t := op]), u, op') <==> AppliesAt(node, u, op')
  {
    EffectGet(node, map[t := op], u.container);
    EffectOnAt(node.Get(u.container), u.container, map[t := op], u.key);
    assert Target(u.container, u.key) == u;
  }

  lemma ApplicableFrame(node: Node, after: Node, t: Target, ops: Ops)
    requires t in ops && AppliesAt(node, t, ops[t])
    requires forall u :: u in ops && u != t ==> (AppliesAt(after, u, ops[u]) <==> AppliesAt(node, u, ops[u]))
    ensures Applicable(after, ops - {t}) <==> Applicable(node, ops)
  {
    var rest := ops - {t};
    if Applicable(after, rest) {
      forall u | u in ops ensures AppliesAt(node, u, ops[u]) {
        assert u != t ==> u in rest && AppliesAt(after, u, rest[u]);
      }
    }
  }

  lemma ApplicableStep(node: Node, after: Node, t: Target, ops: Ops)
    requires t in ops && AppliesAt(node, t, ops[t])
    requires after == Effect(node, map[t := ops[t]])
    ensures Applicable(after, ops - {t}) <==> Applicable(node, ops)
  {
    forall u | u in ops && u != t ensures AppliesAt(after, u, ops[u]) <==> AppliesAt(node, u, ops[u]) {
      AppliesElsewhere(node, t, ops[t], u, ops[u]);
    }
    ApplicableFrame(node, after, t, ops);
  }

  lemma NoOps(node: Node)
    ensures Effect(node, map[]) == node
  {
    forall m: map<string, string>, c: Container ensures EffectOn(m, c, map[]) == m {
      assert OpKeys(map[], c) == {};
    }
  }

  /**
   Operations with different targets succeed exactly when each of them fits the node on its own, and
   the order in which they are listed does not matter for the node they lead to.
   */
  lemma {:induction false} ApplyListed(node: Node, ps: seq<Patch>, ts: seq<Target>, ops: Ops)
    requires Lists(ps, ts, ops) && PatchableTargets(ops)
    ensures ApplyAll(node, ps) == if Applicable(node, ops) then Some(Effect(node, ops)) else None
    decreases |ps|
  {
    if ps == [] {
      assert ts == [] && ops == map[];
      NoOps(node);
    } else {
      var t := ts[0];
      ListsTail(ps, ts, ops);
      ApplyRendered(node, t, ops[t]);
      if AppliesAt(node, t, ops[t]) {
        var after := Effect(node, map[t := ops[t]]);
        ApplicableStep(node, after, t, ops);
        ApplyListed(after, ps[1..], ts[1..], ops - {t});
        EffectOnStep(node.labels, Labels, t, ops);
        EffectOnStep(node.annotations, Annotations, t, ops);
        EffectOnStep(node.capacity, Capacity, t, ops);
        EffectOnStep(node.allocatable, Allocatable, t, ops);
      }
    }
  }

  /** Shuffling a list of operations with different targets does not change what it does. */
  lemma ApplyShuffled(node: Node, ps: seq<Patch>, ts: seq<Target>, ops: Ops, qs: seq<Patch>)
    requires Lists(ps, ts, ops) && PatchableTargets(ops) && multiset(qs) == multiset(ps)
    ensures ApplyAll(node, qs) == ApplyAll(node, ps)
  {
    var target := (p: Patch) => match Resolve(p.path) case Some(t) => t case None => Target(Labels, "");
    var us := Apply(target, qs);
    forall i | 0 <= i < |ps| ensures target(ps[i]) == ts[i] {
      assert ts[i] in ts;
      RenderResolves(ts[i], ops[ts[i]]);
    }
    assert Apply(target, ps) == ts;
    ApplyPermutation(target, ps, qs);
    DistinctPermutation(ts, us);
    SameElements(ts, us);
    SameElements(ps, qs);
    forall i | 0 <= i < |us| ensures us[i] in ops && qs[i] == Render(us[i], ops[us[i]]) {
      assert qs[i] in ps;
      var j :| 0 <= j < |ps| && ps[j] == qs[i];
      assert us[i] == target(ps[j]) == ts[j];
      assert ts[j] in ts;
    }
    ApplyListed(node, ps, ts, ops);
    ApplyListed(node, qs, us, ops);
  }
}
