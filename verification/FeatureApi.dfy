/** The feature and rule types of api/nfd/v1alpha1/types.go. Nil and empty element maps differ, as in Go. */
module FeatureApi {
  import opened Strings

  type Attrs = Items

  datatype Features = Features(
    flags: map<string, Option<set<string>>>,
    attributes: map<string, Option<Attrs>>,
    instances: map<string, seq<Attrs>>)

  function FlagsAt(f: Features, k: string): Option<set<string>> {
    if k in f.flags then f.flags[k] else None
  }

  function AttrsAt(f: Features, k: string): Option<Attrs> {
    if k in f.attributes then f.attributes[k] else None
  }

  function InstancesAt(f: Features, k: string): seq<Attrs> {
    if k in f.instances then f.instances[k] else []
  }

  /** A Go map from strings; variables and fields refer to it, so it can be shared. */
  class Elements<V> {
    var m: map<string, V>

    constructor (m: map<string, V>)
      ensures this.m == m
    {
      this.m := m;
    }
  }

  /** What a possibly nil map of strings holds. */
  function NilMap(values: Elements?<string>): Attrs
    reads values
  {
    if values == null then map[] else values.m
  }

  /** Maps copied one after the other into an empty one; later ones win. */
  function Overlaid(parts: seq<Attrs>): Attrs {
    if parts == [] then map[] else Overlaid(parts[..|parts| - 1]) + parts[|parts| - 1]
  }

  lemma OverlaidNext(parts: seq<Attrs>, part: Attrs)
    ensures Overlaid(parts + [part]) == Overlaid(parts) + part
  {
    assert (parts + [part])[..|parts|] == parts;
  }

  /** Some element of the list has the property. */
  ghost predicate AnyOf<T>(p: T -> bool, xs: seq<T>) {
    exists i :: 0 <= i < |xs| && p(xs[i])
  }

  lemma AnyOfNext<T>(p: T -> bool, xs: seq<T>, i: nat)
    requires i < |xs|
    ensures AnyOf(p, xs[..i + 1]) <==> AnyOf(p, xs[..i]) || p(xs[i])
  {
    var before, after := xs[..i], xs[..i + 1];
    assert after[i] == xs[i] && forall j :: 0 <= j < i ==> before[j] == after[j];
  }

  lemma AnyOfPrefix<T>(p: T -> bool, xs: seq<T>, i: nat)
    requires i <= |xs| && AnyOf(p, xs[..i])
    ensures AnyOf(p, xs)
  {
    var j :| 0 <= j < i && p(xs[..i][j]);
    assert xs[..i][j] == xs[j];
  }

  datatype MatchOp =
    | MatchAny | MatchIn | MatchNotIn | MatchInRegexp | MatchExists | MatchDoesNotExist
    | MatchGt | MatchLt | MatchGtLt | MatchIsTrue | MatchIsFalse
    | Unknown(name: string)

  datatype MatchExpression = MatchExpression(op: MatchOp, value: seq<string>)

  type MatchExpressionSet = map<string, MatchExpression>

  datatype FeatureMatcherTerm = Term(
    feature: string,
    matchExpressions: Option<MatchExpressionSet>,
    matchName: Option<MatchExpression>)

  type FeatureMatcher = seq<FeatureMatcherTerm>

  /** The matching part of a rule, shared by `Rule` and `GroupRule`. */
  datatype Matchers = Matchers(matchAny: seq<FeatureMatcher>, matchFeatures: FeatureMatcher)

  /** The regular expression engine: which patterns compile, and what they match. */
  datatype Regexps = Regexps(compiles: string -> bool, matches: (string, string) -> bool)
}
