/** `addNsToMapKeys` of pkg/nfd-master/nfd-master.go: default namespaces for the keys of a map. */
module Namespacing {
  import opened Strings
  import opened Sorting
  import opened GoPath
  import opened Tracking

  /** An unprefixed key whose prefixed form is not in the map as well. */
  predicate Lifted(m: Items, ns: string, k: string) {
    k in m && '/' !in k && JoinPath(ns, k) !in m
  }

  /** `out` is `m` with default namespaces: prefixed keys win over unprefixed ones. */
  ghost predicate Namespaced(m: Items, ns: string, out: Items) {
    && (forall k :: k in m && '/' in k ==> k in out && out[k] == m[k])
    && (forall k :: Lifted(m, ns, k) ==> JoinPath(ns, k) in out)
    && (forall q :: q in out ==>
          || (q in m && '/' in q && out[q] == m[q])
          || (exists k :: Lifted(m, ns, k) && JoinPath(ns, k) == q && out[q] == m[k]))
  }

  /** The key under which the loop stores the value of a key, if it does. */
  function Place(m: Items, ns: string): string -> Option<string> {
    k => if '/' in k then Some(k) else if JoinPath(ns, k) in m then None else Some(JoinPath(ns, k))
  }

  method AddNsToMapKeys(m: Items, ns: string) returns (out: Items)
    ensures Namespaced(m, ns, out)
  {
    ghost var order;
    out, order := AddNsInOrder(m, ns);
    StoredPlaced(m, Place(m, ns), order);
    PlacedNamespaced(m, ns, out);
  }

  /** The loop, with the order in which the map yields its keys. */
  method AddNsInOrder(m: Items, ns: string) returns (out: Items, ghost order: seq<string>)
    ensures IsOrder(order, m) && out == Stored(m, Place(m, ns), order)
  {
    out, order := map[], [];
    var todo := m.Keys;
    while todo != {}
      invariant todo <= m.Keys && multiset(order) == multiset(m.Keys - todo)
      invariant AllIn(order, m) && out == Stored(m, Place(m, ns), order)
    {
      var k :| k in todo;
      MoveOne(m.Keys, todo, order, k);
      StoredNext(m, Place(m, ns), order, k);
      todo := todo - {k};
      order := order + [k];
      out := AddOne(m, ns, k, out);
    }
    assert m.Keys - todo == m.Keys;
  }

  /** The body of the loop. */
  method AddOne(m: Items, ns: string, k: string, before: Items) returns (out: Items)
    requires k in m
    ensures out == Put(m, Place(m, ns), k, before)
  {
    out := before;
    if '/' in k {
      out := out[k := m[k]];
    } else {
      var fqn := JoinPath(ns, k);
      if fqn !in m {
        out := out[fqn := m[k]];
      }
    }
  }

  // ---- Storing values in some order ----

  type Placing = string -> Option<string>

  function Put(m: Items, place: Placing, k: string, out: Items): Items
    requires k in m
  {
    if place(k).None? then out else out[place(k).value := m[k]]
  }

  predicate AllIn(order: seq<string>, m: Items) {
    forall i :: 0 <= i < |order| ==> order[i] in m
  }

  /** An order in which the map may yield its keys. */
  ghost predicate IsOrder(order: seq<string>, m: Items) {
    AllIn(order, m) && multiset(order) == multiset(m.Keys)
  }

  /** What the loop makes of the keys in this order. */
  function Stored(m: Items, place: Placing, order: seq<string>): Items
    requires AllIn(order, m)
  {
    if order == [] then map[] else Put(m, place, order[|order| - 1], Stored(m, place, order[..|order| - 1]))
  }

  lemma StoredNext(m: Items, place: Placing, order: seq<string>, k: string)
    requires AllIn(order, m) && k in m
    ensures AllIn(order + [k], m)
    ensures Stored(m, place, order + [k]) == Put(m, place, k, Stored(m, place, order))
  {
    assert (order + [k])[..|order|] == order;
  }

  /** The last position in order of a key that is stored at `q`, or -1. */
  function LastAt(place: Placing, order: seq<string>, q: string): (i: int)
    ensures -1 <= i < |order| && (i >= 0 ==> place(order[i]) == Some(q))
    ensures forall j :: i < j < |order| ==> place(order[j]) != Some(q)
  {
    if order == [] then -1
    else if place(order[|order| - 1]) == Some(q) then |order| - 1
    else LastAt(place, order[..|order| - 1], q)
  }

  /** A key of the result has the value of the last key in order that is stored there. */
  lemma {:induction false} StoredAt(m: Items, place: Placing, order: seq<string>, q: string)
    requires AllIn(order, m)
    ensures var i := LastAt(place, order, q);
      && (q in Stored(m, place, order) <==> i >= 0)
      && (i >= 0 ==> Stored(m, place, order)[q] == m[order[i]])
  {
    if order != [] {
      StoredAt(m, place, order[..|order| - 1], q);
    }
  }

  /** `out` holds something for every key stored, and nothing but values of keys stored there. */
  ghost predicate Placed(m: Items, place: Placing, out: Items) {
    && (forall k :: k in m && place(k).Some? ==> place(k).value in out)
    && (forall q :: q in out ==> Shows(m, place, out, q))
  }

  ghost predicate Shows(m: Items, place: Placing, out: Items, q: string) {
    q in out && exists k :: k in m && place(k) == Some(q) && out[q] == m[k]
  }

  /** Every order of the keys gives such a result. */
  lemma StoredPlaced(m: Items, place: Placing, order: seq<string>)
    requires IsOrder(order, m)
    ensures Placed(m, place, Stored(m, place, order))
  {
    var out := Stored(m, place, order);
    forall k | k in m && place(k).Some? ensures place(k).value in out {
      assert k in multiset(order);
      var j :| 0 <= j < |order| && order[j] == k;
      StoredAt(m, place, order, place(k).value);
    }
    forall q | q in out ensures Shows(m, place, out, q) {
      StoredAt(m, place, order, q);
      assert order[LastAt(place, order, q)] in m;
    }
  }

  lemma PlacedThenNamespaced(m: Items, ns: string, out: Items)
    requires Placed(m, Place(m, ns), out)
    ensures Namespaced(m, ns, out)
  {
    var place := Place(m, ns);
    forall k | k in m && '/' in k ensures k in out && out[k] == m[k] {
      assert place(k) == Some(k) && Shows(m, place, out, k);
    }
    forall k | Lifted(m, ns, k) ensures JoinPath(ns, k) in out {
      assert place(k) == Some(JoinPath(ns, k));
    }
    forall q | q in out && !(q in m && '/' in q)
      ensures exists k :: Lifted(m, ns, k) && JoinPath(ns, k) == q && out[q] == m[k]
    {
      assert Shows(m, place, out, q);
      var k :| k in m && place(k) == Some(q) && out[q] == m[k];
      assert Lifted(m, ns, k);
    }
  }

  lemma NamespacedThenPlaced(m: Items, ns: string, out: Items)
    requires Namespaced(m, ns, out)
    ensures Placed(m, Place(m, ns), out)
  {
    var place := Place(m, ns);
    forall q | q in out ensures Shows(m, place, out, q) {
      if q in m && '/' in q {
        assert place(q) == Some(q);
      } else {
        var k :| Lifted(m, ns, k) && JoinPath(ns, k) == q && out[q] == m[k];
        assert place(k) == Some(q);
      }
    }
  }

  /** For `addNsToMapKeys` these are the results specified. */
  lemma PlacedNamespaced(m: Items, ns: string, out: Items)
    ensures Placed(m, Place(m, ns), out) <==> Namespaced(m, ns, out)
  {
    if Placed(m, Place(m, ns), out) { PlacedThenNamespaced(m, ns, out); }
    if Namespaced(m, ns, out) { NamespacedThenPlaced(m, ns, out); }
  }

  /** A key as users write labels: a plain name, or a name with one namespace in front. */
  predicate Plain(k: string) {
    '/' in k || Segment(k)
  }

  ghost predicate PlainKeys(m: Items) {
    forall k :: k in m ==> Plain(k)
  }

  /** What a prefixed key stands for: itself if given, else the unprefixed form of the default namespace. */
  function ValueOf(m: Items, ns: string, q: string): Option<string> {
    if '/' in q && q in m then Some(m[q])
    else if ns + "/" <= q && Segment(q[|ns| + 1..]) && q[|ns| + 1..] in m then Some(m[q[|ns| + 1..]])
    else None
  }

  lemma JoinNameInverse(ns: string, k: string)
    requires Segment(ns) && Segment(k)
    ensures JoinPath(ns, k) == ns + "/" + k && ns + "/" <= JoinPath(ns, k) && JoinPath(ns, k)[|ns| + 1..] == k
  {
    JoinName(ns, k);
  }

  /** On plain keys the result does not depend on the iteration order. */
  lemma NamespacedAt(m: Items, ns: string, out: Items, q: string)
    requires Segment(ns) && PlainKeys(m) && Namespaced(m, ns, out)
    ensures q in out <==> ValueOf(m, ns, q).Some?
    ensures q in out ==> Some(out[q]) == ValueOf(m, ns, q)
  {
    if q in out {
      if k :| Lifted(m, ns, k) && JoinPath(ns, k) == q && out[q] == m[k] {
        JoinNameInverse(ns, k);
      }
    }
    if ValueOf(m, ns, q).Some? {
      if !('/' in q && q in m) {
        var k := q[|ns| + 1..];
        JoinNameInverse(ns, k);
        assert q == ns + "/" + k;
        assert Lifted(m, ns, k);
      }
    }
  }

  /** Unprefixed keys that come to stand for the same prefixed key have the same value. */
  ghost predicate Determinate(m: Items, ns: string) {
    forall k, l :: Lifted(m, ns, k) && Lifted(m, ns, l) && JoinPath(ns, k) == JoinPath(ns, l) ==> m[k] == m[l]
  }

  lemma PlainDeterminate(m: Items, ns: string)
    requires Segment(ns) && PlainKeys(m)
    ensures Determinate(m, ns)
  {
    forall k, l | Lifted(m, ns, k) && Lifted(m, ns, l) && JoinPath(ns, k) == JoinPath(ns, l) ensures m[k] == m[l] {
      JoinNameInverse(ns, k);
      JoinNameInverse(ns, l);
    }
  }

  lemma NamespacedUnique(m: Items, ns: string, a: Items, b: Items)
    requires Determinate(m, ns) && Namespaced(m, ns, a) && Namespaced(m, ns, b)
    ensures a == b
  {
    forall q | q in a ensures q in b && a[q] == b[q] { NamespacedIn(m, ns, a, b, q); }
    forall q | q in b ensures q in a { NamespacedIn(m, ns, b, a, q); }
  }

  lemma NamespacedIn(m: Items, ns: string, a: Items, b: Items, q: string)
    requires Determinate(m, ns) && Namespaced(m, ns, a) && Namespaced(m, ns, b) && q in a
    ensures q in b && a[q] == b[q]
  {
    if !(q in m && '/' in q) {
      var k :| Lifted(m, ns, k) && JoinPath(ns, k) == q && a[q] == m[k];
      assert q in b && q !in m;
      var l :| Lifted(m, ns, l) && JoinPath(ns, l) == q && b[q] == m[l];
    }
  }

  /** The unprefixed key that a result takes the value of `q` from, the preferred one if it can be that. */
  ghost function Source(m: Items, ns: string, preferred: string, q: string): (k: string)
    requires exists k :: Lifted(m, ns, k) && JoinPath(ns, k) == q
    ensures Lifted(m, ns, k) && JoinPath(ns, k) == q
    ensures Lifted(m, ns, preferred) && JoinPath(ns, preferred) == q ==> k == preferred
  {
    if Lifted(m, ns, preferred) && JoinPath(ns, preferred) == q then preferred
    else var k :| Lifted(m, ns, k) && JoinPath(ns, k) == q; k
  }

  /** What a key of the result stands for: itself if given, else an unprefixed key that is lifted to it. */
  ghost function Stands(m: Items, ns: string, q: string): Option<string> {
    if '/' in q && q in m then Some(m[q])
    else if exists k :: Lifted(m, ns, k) && JoinPath(ns, k) == q then Some(m[Source(m, ns, q, q)])
    else None
  }

  lemma NamespacedStands(m: Items, ns: string, out: Items, q: string)
    requires Determinate(m, ns) && Namespaced(m, ns, out)
    ensures q in out <==> Stands(m, ns, q).Some?
    ensures q in out ==> Some(out[q]) == Stands(m, ns, q)
  {
    if q in out && !(q in m && '/' in q) {
      var k :| Lifted(m, ns, k) && JoinPath(ns, k) == q && out[q] == m[k];
      assert m[k] == m[Source(m, ns, q, q)];
    }
  }

  /** A result in which the preferred key, if unprefixed, is taken last. */
  ghost function Preferring(m: Items, ns: string, preferred: string): Items {
    var given := set k | k in m && '/' in k;
    var lifted := set k | k in m && Lifted(m, ns, k) :: JoinPath(ns, k);
    map q | q in given + lifted :: if q in m && '/' in q then m[q] else m[Source(m, ns, preferred, q)]
  }

  lemma PreferringNamespaced(m: Items, ns: string, preferred: string)
    ensures Namespaced(m, ns, Preferring(m, ns, preferred))
    ensures Lifted(m, ns, preferred) ==>
      JoinPath(ns, preferred) in Preferring(m, ns, preferred)
        && Preferring(m, ns, preferred)[JoinPath(ns, preferred)] == m[preferred]
  {
  }

  /** On plain keys that is what can be read off the key. */
  lemma StandsPlain(m: Items, ns: string, q: string)
    requires Segment(ns) && PlainKeys(m)
    ensures Stands(m, ns, q) == ValueOf(m, ns, q)
  {
    PlainDeterminate(m, ns);
    PreferringNamespaced(m, ns, q);
    NamespacedAt(m, ns, Preferring(m, ns, q), q);
    NamespacedStands(m, ns, Preferring(m, ns, q), q);
  }

  /** The result is one, whatever the iteration order, exactly when no two unprefixed keys compete. */
  lemma NamespacedExactly(m: Items, ns: string)
    ensures (forall a, b :: Namespaced(m, ns, a) && Namespaced(m, ns, b) ==> a == b) <==> Determinate(m, ns)
  {
    if Determinate(m, ns) {
      forall a, b | Namespaced(m, ns, a) && Namespaced(m, ns, b) ensures a == b {
        NamespacedUnique(m, ns, a, b);
      }
    } else {
      var k, l :| Lifted(m, ns, k) && Lifted(m, ns, l) && JoinPath(ns, k) == JoinPath(ns, l) && m[k] != m[l];
      PreferringNamespaced(m, ns, k);
      PreferringNamespaced(m, ns, l);
      assert Preferring(m, ns, k) != Preferring(m, ns, l);
    }
  }

  /** Off plain keys the iteration order shows: two unprefixed keys can stand for one prefixed key. */
  lemma NamespacedAmbiguous(ns: string, a: string, b: string)
    requires Segment(ns)
    ensures var m := map["" := a, "." := b];
      Namespaced(m, ns, map[ns := a]) && Namespaced(m, ns, map[ns := b])
  {
    JoinDots(ns);
    CleanRelative([ns]);
    var m := map["" := a, "." := b];
    assert JoinPath(ns, "") == ns;
    assert Lifted(m, ns, "") && Lifted(m, ns, ".");
  }

  // ---- Every specified result comes from some order ----

  /** A key whose value shows at `q`. */
  ghost function ShownAt(m: Items, place: Placing, out: Items, q: string): (k: string)
    requires Shows(m, place, out, q)
    ensures k in m && place(k) == Some(q) && out[q] == m[k]
  {
    var k :| k in m && place(k) == Some(q) && out[q] == m[k];
    k
  }

  /** One key for each key of the result. */
  ghost function Shown(m: Items, place: Placing, out: Items): (shown: set<string>)
    requires Placed(m, place, out)
    ensures forall k :: k in shown ==> k in m && place(k).Some? && place(k).value in out && out[place(k).value] == m[k]
  {
    set q | q in out :: ShownAt(m, place, out, q)
  }

  /** The keys of one set, then those of another. */
  ghost function Arranged(first: set<string>, last: set<string>): seq<string> {
    SeqOf(first) + SeqOf(last)
  }

  lemma ArrangedAt(first: set<string>, last: set<string>, i: nat)
    requires i < |Arranged(first, last)|
    ensures Arranged(first, last)[i] in if i < |SeqOf(first)| then first else last
  {
    if i < |SeqOf(first)| {
      assert SeqOf(first)[i] in multiset(SeqOf(first));
    } else {
      assert SeqOf(last)[i - |SeqOf(first)|] in multiset(SeqOf(last));
    }
  }

  lemma ArrangedHas(first: set<string>, last: set<string>, k: string) returns (i: nat)
    requires k in last
    ensures |SeqOf(first)| <= i < |Arranged(first, last)| && Arranged(first, last)[i] == k
  {
    assert k in multiset(SeqOf(last));
    var j :| 0 <= j < |SeqOf(last)| && SeqOf(last)[j] == k;
    i := |SeqOf(first)| + j;
  }

  lemma ArrangedOrder(m: Items, shown: set<string>)
    requires shown <= m.Keys
    ensures IsOrder(Arranged(m.Keys - shown, shown), m)
  {
    assert m.Keys == (m.Keys - shown) + shown;
    forall i | 0 <= i < |Arranged(m.Keys - shown, shown)| ensures Arranged(m.Keys - shown, shown)[i] in m {
      ArrangedAt(m.Keys - shown, shown, i);
    }
  }

  /** When the shown keys come last, the last key stored at `q` is the one that shows there. */
  lemma ShownLast(m: Items, place: Placing, out: Items, q: string, shown: set<string>)
    requires Placed(m, place, out) && shown == Shown(m, place, out) && AllIn(Arranged(m.Keys - shown, shown), m)
    ensures var order := Arranged(m.Keys - shown, shown);
      var i := LastAt(place, order, q);
      (i >= 0 <==> q in out) && (i >= 0 ==> m[order[i]] == out[q])
  {
    var order := Arranged(m.Keys - shown, shown);
    var i := LastAt(place, order, q);
    if q in out {
      assert Shows(m, place, out, q);
      var k := ShownAt(m, place, out, q);
      assert k in shown;
      var j := ArrangedHas(m.Keys - shown, shown, k);
      ArrangedAt(m.Keys - shown, shown, i);
      assert order[i] in shown;
    }
  }

  lemma ArrangedSame(m: Items, place: Placing, out: Items, q: string, shown: set<string>)
    requires Placed(m, place, out) && shown == Shown(m, place, out) && AllIn(Arranged(m.Keys - shown, shown), m)
    ensures SameAt(Stored(m, place, Arranged(m.Keys - shown, shown)), out, q)
  {
    StoredAt(m, place, Arranged(m.Keys - shown, shown), q);
    ShownLast(m, place, out, q, shown);
  }

  lemma OrderExists(m: Items, place: Placing, out: Items) returns (order: seq<string>)
    requires Placed(m, place, out)
    ensures IsOrder(order, m) && Stored(m, place, order) == out
  {
    var shown := Shown(m, place, out);
    ArrangedOrder(m, shown);
    order := Arranged(m.Keys - shown, shown);
    forall q ensures SameAt(Stored(m, place, order), out, q) {
      ArrangedSame(m, place, out, q, shown);
    }
    SameMaps(Stored(m, place, order), out);
  }

  /** A map is as specified if and only if it is the result of the loop for some order of the keys. */
  lemma NamespacedOrders(m: Items, ns: string, out: Items)
    ensures Namespaced(m, ns, out) <==> exists order :: IsOrder(order, m) && Stored(m, Place(m, ns), order) == out
  {
    PlacedNamespaced(m, ns, out);
    if Namespaced(m, ns, out) {
      var order := OrderExists(m, Place(m, ns), out);
    }
    if order :| IsOrder(order, m) && Stored(m, Place(m, ns), order) == out {
      StoredPlaced(m, Place(m, ns), order);
    }
  }

  /** The loop gives one result for all orders exactly when no two unprefixed keys compete. */
  lemma OrdersAgreeExactly(m: Items, ns: string)
    ensures Determinate(m, ns) <==>
      forall a, b :: IsOrder(a, m) && IsOrder(b, m) ==> Stored(m, Place(m, ns), a) == Stored(m, Place(m, ns), b)
  {
    var place := Place(m, ns);
    NamespacedExactly(m, ns);
    if Determinate(m, ns) {
      forall a, b | IsOrder(a, m) && IsOrder(b, m) ensures Stored(m, place, a) == Stored(m, place, b) {
        StoredPlaced(m, place, a);
        StoredPlaced(m, place, b);
        PlacedNamespaced(m, ns, Stored(m, place, a));
        PlacedNamespaced(m, ns, Stored(m, place, b));
      }
    } else {
      var x, y :| Namespaced(m, ns, x) && Namespaced(m, ns, y) && x != y;
      PlacedNamespaced(m, ns, x);
      PlacedNamespaced(m, ns, y);
      var a := OrderExists(m, place, x);
      var b := OrderExists(m, place, y);
      assert Stored(m, place, a) != Stored(m, place, b);
    }
  }
}
