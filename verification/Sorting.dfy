/**
 Go's `sort.Slice` and `sort.Strings`. The library sort is not stable, so clients rely only on what
 every sorted permutation has; `SortedUnique` shows when that pins down the result.
 */
module Sorting {
  import opened Strings

  ghost predicate NoneBelow<T>(less: (T, T) -> bool, x: T, xs: seq<T>) {
    forall y :: y in xs ==> !less(y, x)
  }

  ghost predicate SortedBy<T>(less: (T, T) -> bool, xs: seq<T>) {
    xs == [] || (NoneBelow(less, xs[0], xs[1..]) && SortedBy(less, xs[1..]))
  }

  ghost predicate Within<T>(xs: seq<T>, carrier: iset<T>) {
    forall x :: x in xs ==> x in carrier
  }

  /** `less` is a strict order on `carrier`. */
  ghost predicate StrictOn<T>(less: (T, T) -> bool, carrier: iset<T>) {
    && (forall x, y :: x in carrier && y in carrier && less(x, y) ==> !less(y, x))
    && (forall x, y, z :: x in carrier && y in carrier && z in carrier && less(x, y) && less(y, z) ==> less(x, z))
  }

  /** Moreover, any two different members compare. */
  ghost predicate OrderOn<T>(less: (T, T) -> bool, carrier: iset<T>) {
    && StrictOn(less, carrier)
    && (forall x, y :: x in carrier && y in carrier && !less(x, y) && !less(y, x) ==> x == y)
  }

  function Insert<T>(less: (T, T) -> bool, x: T, xs: seq<T>): (r: seq<T>)
    ensures multiset(r) == multiset(xs) + multiset{x}
  {
    if xs == [] then [x]
    else if less(x, xs[0]) then [x] + xs
    else
      assert xs == [xs[0]] + xs[1..];
      [xs[0]] + Insert(less, x, xs[1..])
  }

  function Sort<T>(less: (T, T) -> bool, xs: seq<T>): (r: seq<T>)
    ensures multiset(r) == multiset(xs)
  {
    if xs == [] then []
    else
      assert xs == [xs[0]] + xs[1..];
      Insert(less, xs[0], Sort(less, xs[1..]))
  }

  lemma SameElements<T>(xs: seq<T>, ys: seq<T>)
    requires multiset(xs) == multiset(ys)
    ensures |xs| == |ys|
    ensures forall x :: x in xs <==> x in ys
  {
    assert |multiset(xs)| == |xs| && |multiset(ys)| == |ys|;
    forall x ensures x in xs <==> x in ys {
      assert x in xs <==> x in multiset(xs);
      assert x in ys <==> x in multiset(ys);
    }
  }

  lemma HeadOrTail<T>(xs: seq<T>, y: T)
    requires y in xs
    ensures y == xs[0] || y in xs[1..]
  {
    assert xs == [xs[0]] + xs[1..];
  }

  lemma InsertElement<T>(less: (T, T) -> bool, x: T, xs: seq<T>, y: T)
    requires y in Insert(less, x, xs)
    ensures y == x || y in xs
  {
    assert y in multiset(Insert(less, x, xs));
  }

  lemma SortElement<T>(less: (T, T) -> bool, xs: seq<T>, y: T)
    requires y in Sort(less, xs)
    ensures y in xs
  {
    assert y in multiset(Sort(less, xs));
  }

  lemma {:induction false} InsertSorted<T>(less: (T, T) -> bool, x: T, xs: seq<T>, carrier: iset<T>)
    requires StrictOn(less, carrier) && x in carrier && Within(xs, carrier) && SortedBy(less, xs)
    ensures SortedBy(less, Insert(less, x, xs))
  {
    if xs == [] {
    } else if less(x, xs[0]) {
      assert xs[0] in carrier;
      forall y | y in xs ensures !less(y, x) {
        assert y in carrier;
        HeadOrTail(xs, y);
      }
      assert ([x] + xs)[1..] == xs;
    } else {
      var rest := Insert(less, x, xs[1..]);
      InsertSorted(less, x, xs[1..], carrier);
      forall y | y in rest ensures !less(y, xs[0]) {
        InsertElement(less, x, xs[1..], y);
      }
      assert ([xs[0]] + rest)[1..] == rest;
    }
  }

  lemma {:induction false} SortSorted<T>(less: (T, T) -> bool, xs: seq<T>, carrier: iset<T>)
    requires StrictOn(less, carrier) && Within(xs, carrier)
    ensures SortedBy(less, Sort(less, xs))
  {
    if xs != [] {
      SortSorted(less, xs[1..], carrier);
      forall y | y in Sort(less, xs[1..]) ensures y in carrier {
        SortElement(less, xs[1..], y);
      }
      InsertSorted(less, xs[0], Sort(less, xs[1..]), carrier);
    }
  }

  lemma {:induction false} SortedPairs<T>(less: (T, T) -> bool, xs: seq<T>, i: nat, j: nat)
    requires SortedBy(less, xs) && i < j < |xs|
    ensures !less(xs[j], xs[i])
  {
    if i == 0 {
      assert xs[j] == xs[1..][j - 1];
    } else {
      SortedPairs(less, xs[1..], i - 1, j - 1);
    }
  }

  lemma SameTails<T>(xs: seq<T>, ys: seq<T>)
    requires xs != [] && ys != [] && xs[0] == ys[0] && multiset(xs) == multiset(ys)
    ensures multiset(xs[1..]) == multiset(ys[1..])
  {
    assert xs == [xs[0]] + xs[1..] && ys == [ys[0]] + ys[1..];
    assert multiset(xs[1..]) == multiset(xs) - multiset{xs[0]};
    assert multiset(ys[1..]) == multiset(ys) - multiset{xs[0]};
  }

  /** Two sorted permutations of the same elements are the same sequence. */
  lemma {:induction false} SortedUnique<T>(less: (T, T) -> bool, xs: seq<T>, ys: seq<T>, carrier: iset<T>)
    requires multiset(xs) == multiset(ys) && OrderOn(less, carrier) && Within(xs, carrier)
    requires SortedBy(less, xs) && SortedBy(less, ys)
    ensures xs == ys
    decreases |xs|
  {
    SameElements(xs, ys);
    if xs != [] {
      var x, y := xs[0], ys[0];
      assert x in carrier && y in xs && y in carrier && x in ys;
      HeadOrTail(xs, y);
      HeadOrTail(ys, x);
      SameTails(xs, ys);
      SortedUnique(less, xs[1..], ys[1..], carrier);
      assert xs == [x] + xs[1..] && ys == [y] + ys[1..];
    }
  }

  ghost const ALL_STRINGS: iset<string> := iset s: string | true

  lemma LessOrder()
    ensures OrderOn(Less, ALL_STRINGS)
  {
    forall x: string, y: string
      ensures (Less(x, y) ==> !Less(y, x)) && (!Less(x, y) && !Less(y, x) ==> x == y)
    {
      LessTrichotomy(x, y);
    }
    forall x: string, y: string, z: string | Less(x, y) && Less(y, z) ensures Less(x, z) {
      LessTransitive(x, y, z);
    }
  }

  /** `sort.Strings`. */
  function SortStrings(xs: seq<string>): (r: seq<string>)
    ensures multiset(r) == multiset(xs)
  {
    Sort(Less, xs)
  }

  /** Sorting forgets the order in which the strings were collected. */
  lemma SortStringsCanonical(xs: seq<string>, ys: seq<string>)
    requires multiset(xs) == multiset(ys)
    ensures SortStrings(xs) == SortStrings(ys)
  {
    LessOrder();
    SortSorted(Less, xs, ALL_STRINGS);
    SortSorted(Less, ys, ALL_STRINGS);
    SortedUnique(Less, SortStrings(xs), SortStrings(ys), ALL_STRINGS);
  }

  /** Each string comes before, or is the same as, those after it. */
  ghost predicate Ascending(xs: seq<string>) {
    forall i, j :: 0 <= i < j < |xs| ==> xs[i] == xs[j] || Precedes(xs[i], xs[j])
  }

  lemma SortStringsAscending(xs: seq<string>)
    ensures Ascending(SortStrings(xs))
  {
    var r := SortStrings(xs);
    LessOrder();
    SortSorted(Less, xs, ALL_STRINGS);
    forall i, j | 0 <= i < j < |r| ensures r[i] == r[j] || Precedes(r[i], r[j]) {
      SortedPairs(Less, r, i, j);
      LessTrichotomy(r[i], r[j]);
      LessMeans(r[i], r[j]);
    }
  }

  // ---- Rearranging mapped sequences ----

  function Apply<A, B>(f: A -> B, xs: seq<A>): (r: seq<B>)
    ensures |r| == |xs|
    ensures forall i :: 0 <= i < |xs| ==> r[i] == f(xs[i])
  {
    seq(|xs|, i requires 0 <= i < |xs| => f(xs[i]))
  }

  lemma ApplyOne<A, B>(f: A -> B, xs: seq<A>, x: A)
    ensures Apply(f, xs + [x]) == Apply(f, xs) + [f(x)]
    ensures Apply(f, xs + []) == Apply(f, xs)
  {
    assert xs + [] == xs;
  }

  function Without<T>(xs: seq<T>, i: nat): seq<T>
    requires i < |xs|
  {
    xs[..i] + xs[i + 1..]
  }

  lemma RemoveAt<T>(xs: seq<T>, i: nat)
    requires i < |xs|
    ensures multiset(xs) == multiset(Without(xs, i)) + multiset{xs[i]}
  {
    assert xs == xs[..i] + [xs[i]] + xs[i + 1..];
  }

  lemma ApplyRemoveAt<A, B>(f: A -> B, xs: seq<A>, i: nat)
    requires i < |xs|
    ensures multiset(Apply(f, xs)) == multiset(Apply(f, Without(xs, i))) + multiset{f(xs[i])}
  {
    RemoveAt(Apply(f, xs), i);
    assert Without(Apply(f, xs), i) == Apply(f, Without(xs, i));
  }

  lemma {:induction false} ApplyPermutation<A, B>(f: A -> B, xs: seq<A>, ys: seq<A>)
    requires multiset(xs) == multiset(ys)
    ensures multiset(Apply(f, xs)) == multiset(Apply(f, ys))
    decreases |xs|
  {
    SameElements(xs, ys);
    if xs != [] {
      assert xs[0] in ys;
      var i :| 0 <= i < |ys| && ys[i] == xs[0];
      RemoveAt(xs, 0);
      RemoveAt(ys, i);
      assert multiset(Without(xs, 0)) == multiset(xs) - multiset{xs[0]} == multiset(Without(ys, i));
      ApplyPermutation(f, Without(xs, 0), Without(ys, i));
      ApplyRemoveAt(f, xs, 0);
      ApplyRemoveAt(f, ys, i);
    }
  }

  /** One more element of a set is collected into a list. */
  lemma MoveOne(all: set<string>, todo: set<string>, keys: seq<string>, key: string)
    requires todo <= all && key in todo && multiset(keys) == multiset(all - todo)
    ensures multiset(keys + [key]) == multiset(all - (todo - {key}))
  {
    assert all - (todo - {key}) == (all - todo) + {key};
  }

  ghost predicate Distinct<T>(xs: seq<T>) {
    forall i, j :: 0 <= i < j < |xs| ==> xs[i] != xs[j]
  }

  lemma {:induction false} DistinctCount<T>(xs: seq<T>, x: T)
    requires Distinct(xs)
    ensures multiset(xs)[x] == if x in xs then 1 else 0
  {
    if xs != [] {
      DistinctCount(xs[1..], x);
      assert xs == [xs[0]] + xs[1..];
    }
  }

  lemma DistinctPermutation<T>(xs: seq<T>, ys: seq<T>)
    requires Distinct(xs) && multiset(xs) == multiset(ys)
    ensures Distinct(ys)
  {
    forall i, j | 0 <= i < j < |ys| ensures ys[i] != ys[j] {
      DistinctCount(xs, ys[j]);
      RemoveAt(ys, j);
      assert ys[i] == Without(ys, j)[i];
      assert ys[i] in multiset(Without(ys, j));
    }
  }

  lemma DistinctTail<T>(xs: seq<T>)
    requires xs != [] && Distinct(xs)
    ensures Distinct(xs[1..])
    ensures forall x :: x in xs[1..] <==> x in xs && x != xs[0]
  {
    assert xs == [xs[0]] + xs[1..];
  }

  function Filter<T>(keep: T -> bool, xs: seq<T>): seq<T> {
    if xs == [] then []
    else if keep(xs[0]) then [xs[0]] + Filter(keep, xs[1..])
    else Filter(keep, xs[1..])
  }

  lemma {:induction false} FilterElement<T>(keep: T -> bool, xs: seq<T>, x: T)
    ensures x in Filter(keep, xs) <==> x in xs && keep(x)
  {
    if xs != [] {
      FilterElement(keep, xs[1..], x);
      assert xs == [xs[0]] + xs[1..];
    }
  }

  /** An element as a filter counts it. */
  function Counted<T>(keep: T -> bool, x: T): multiset<T> {
    if keep(x) then multiset{x} else multiset{}
  }

  lemma FilterCons<T>(keep: T -> bool, xs: seq<T>)
    requires xs != []
    ensures multiset(Filter(keep, xs)) == Counted(keep, xs[0]) + multiset(Filter(keep, xs[1..]))
  {
  }

  lemma {:induction false} FilterWithout<T>(keep: T -> bool, xs: seq<T>, i: nat)
    requires i < |xs|
    ensures multiset(Filter(keep, xs)) == multiset(Filter(keep, Without(xs, i))) + Counted(keep, xs[i])
  {
    FilterCons(keep, xs);
    if i == 0 {
      assert Without(xs, 0) == xs[1..];
    } else {
      var rest := Without(xs, i);
      FilterWithout(keep, xs[1..], i - 1);
      assert rest[0] == xs[0] && rest[1..] == Without(xs[1..], i - 1);
      FilterCons(keep, rest);
    }
  }

  lemma {:induction false} FilterPermutation<T>(keep: T -> bool, xs: seq<T>, ys: seq<T>)
    requires multiset(xs) == multiset(ys)
    ensures multiset(Filter(keep, xs)) == multiset(Filter(keep, ys))
    decreases |xs|
  {
    SameElements(xs, ys);
    if xs != [] {
      assert xs[0] in ys;
      var i :| 0 <= i < |ys| && ys[i] == xs[0];
      RemoveAt(xs, 0);
      RemoveAt(ys, i);
      assert multiset(Without(xs, 0)) == multiset(xs) - multiset{xs[0]} == multiset(Without(ys, i));
      FilterPermutation(keep, Without(xs, 0), Without(ys, i));
      FilterWithout(keep, xs, 0);
      FilterWithout(keep, ys, i);
    }
  }
}
