/**
 What each operator of a match expression decides (pkg/apis/nfd/nodefeaturerule/expression.go), in terms
 of smaller expressions or of the values themselves, and what rules of one term decide.
 */
module Operators {
  import opened Strings
  import opened FeatureApi
  import opened MatchExpressions
  import opened RuleEngine

  /** The answer on a present input. */
  function On(re: Regexps, op: MatchOp, value: seq<string>, input: string): Verdict {
    Eval(re, MatchExpression(op, value), true, Some(input))
  }

  predicate OnValue(op: MatchOp) {
    !op.Unknown? && op != MatchAny && op != MatchExists && op != MatchDoesNotExist
  }

  // ---- One expression ----

  /** `In` with one value holds exactly at that value; with more it is a disjunction. */
  lemma InDecides(re: Regexps, a: seq<string>, b: seq<string>, v: string, w: string)
    requires a != [] && b != []
    ensures On(re, MatchIn, [w], v) == Ok(v == w)
    ensures On(re, MatchIn, a, v).Ok? && On(re, MatchIn, b, v).Ok?
    ensures On(re, MatchIn, a + b, v) == Ok(On(re, MatchIn, a, v).matched || On(re, MatchIn, b, v).matched)
    ensures On(re, MatchIn, [], v) == Err
  {
  }

  /** `NotIn` is the negation of `In`, and errs where `In` does. */
  lemma NotInDecides(re: Regexps, value: seq<string>, v: string)
    ensures var yes, no := On(re, MatchIn, value, v), On(re, MatchNotIn, value, v);
      (yes.Ok? <==> no.Ok?) && (yes.Ok? ==> no.matched == !yes.matched)
  {
  }

  /** `IsTrue` and `IsFalse` are `In` with one word. */
  lemma TruthDecides(re: Regexps, v: string)
    ensures On(re, MatchIsTrue, [], v) == On(re, MatchIn, ["true"], v)
    ensures On(re, MatchIsFalse, [], v) == On(re, MatchIn, ["false"], v)
  {
    InDecides(re, ["true"], ["true"], v, "true");
    InDecides(re, ["false"], ["false"], v, "false");
  }

  /** `InRegexp` holds exactly when some listed pattern matches, and errs exactly without patterns or on a bad one. */
  lemma RegexpDecides(re: Regexps, a: seq<string>, b: seq<string>, v: string, p: string)
    requires a != [] && b != []
    ensures On(re, MatchInRegexp, [], v) == Err
    ensures On(re, MatchInRegexp, [p], v) == if re.compiles(p) then Ok(re.matches(p, v)) else Err
    ensures var x, y := On(re, MatchInRegexp, a, v), On(re, MatchInRegexp, b, v);
      On(re, MatchInRegexp, a + b, v) == if x.Err? || y.Err? then Err else Ok(x.matched || y.matched)
  {
    var ab := a + b;
    assert [p][0] == p;
    assert forall i :: 0 <= i < |a| ==> ab[i] == a[i];
    assert forall i :: 0 <= i < |b| ==> ab[|a| + i] == b[i];
    assert forall i :: |a| <= i < |ab| ==> ab[i] == b[i - |a|];
  }

  /** `Gt` and `Lt` compare the numbers that the texts stand for. */
  lemma CompareDecides(re: Regexps, x: int, y: int)
    requires -MAX_INT64 - 1 <= x <= MAX_INT64 && -MAX_INT64 - 1 <= y <= MAX_INT64
    ensures On(re, MatchGt, [FormatInt(y)], FormatInt(x)) == Ok(x > y)
    ensures On(re, MatchLt, [FormatInt(y)], FormatInt(x)) == Ok(x < y)
  {
    AtoiFormat(x);
    AtoiFormat(y);
  }

  /** `GtLt` is `Gt` the first and `Lt` the second bound; it errs where one of them does and on bounds not in order. */
  lemma BetweenDecides(re: Regexps, lo: string, hi: string, v: string)
    ensures On(re, MatchGtLt, [lo, hi], v) ==
      var above, below := On(re, MatchGt, [lo], v), On(re, MatchLt, [hi], v);
      if above.Err? || below.Err? || On(re, MatchLt, [hi], lo) != Ok(true) then Err
      else Ok(above.matched && below.matched)
  {
  }

  /** The operators on values are false on a name that is absent, and on a name without a value. */
  lemma AbsentFails(re: Regexps, e: MatchExpression, n: string, keys: set<string>, values: Attrs)
    requires OnValue(e.op)
    ensures EvalKey(re, e, n, keys) == Ok(false)
    ensures EvalAttr(re, e, n, values) == if n in values then On(re, e.op, e.value, values[n]) else Ok(false)
  {
  }

  /** `Exists` holds exactly when the name is present, `DoesNotExist` exactly when it is not, `Any` always. */
  lemma PresenceDecides(re: Regexps, n: string, keys: set<string>, values: Attrs)
    ensures EvalKey(re, MatchExpression(MatchExists, []), n, keys) == Ok(n in keys)
    ensures EvalAttr(re, MatchExpression(MatchExists, []), n, values) == Ok(n in values)
    ensures EvalKey(re, MatchExpression(MatchDoesNotExist, []), n, keys) == Ok(n !in keys)
    ensures EvalAttr(re, MatchExpression(MatchDoesNotExist, []), n, values) == Ok(n !in values)
    ensures EvalKey(re, MatchExpression(MatchAny, []), n, keys) == Ok(true)
    ensures EvalAttr(re, MatchExpression(MatchAny, []), n, values) == Ok(true)
  {
  }

  // ---- Flags and attributes together ----

  lemma UnionOnValue(re: Regexps, e: MatchExpression, n: string, keys: Option<set<string>>, values: Option<Attrs>)
    requires OnValue(e.op)
    ensures UnionEval(re, e, n, keys, values) ==
      if n in NilKeys(values) then On(re, e.op, e.value, values.value[n]) else Ok(false)
  {
    AbsentFails(re, e, n, NilSet(keys), if values.Some? then values.value else map[]);
  }

  lemma UnionOnPresence(re: Regexps, n: string, keys: Option<set<string>>, values: Option<Attrs>)
    requires keys.Some? || values.Some?
    ensures UnionEval(re, MatchExpression(MatchExists, []), n, keys, values) ==
      Ok(n in NilSet(keys) || n in NilKeys(values))
    ensures UnionEval(re, MatchExpression(MatchDoesNotExist, []), n, keys, values) ==
      Ok(n !in NilSet(keys) && n !in NilKeys(values))
    ensures UnionEval(re, MatchExpression(MatchAny, []), n, keys, values) == Ok(true)
  {
    PresenceDecides(re, n, NilSet(keys), if values.Some? then values.value else map[]);
  }

  // ---- Rules of one term ----

  /** A rule with one expression on one name of a feature. */
  function OneTerm(feature: string, n: string, e: MatchExpression): Matchers {
    Matchers([], [Term(feature, Some(map[n := e]), None)])
  }

  /** A rule on a feature as such. */
  function OneFeature(feature: string): Matchers {
    Matchers([], [Term(feature, None, None)])
  }

  /** A rule without expressions matches exactly when there is anything under the feature, in lower case. */
  lemma FeatureRule(re: Regexps, f: Features, feature: string)
    ensures RuleMatch(re, OneFeature(feature), f) <==>
      var k := ToLower(feature); k in f.flags.Keys + f.attributes.Keys + f.instances.Keys
  {
    var term := OneFeature(feature).matchFeatures[0];
    assert RuleMatch(re, OneFeature(feature), f) <==> TermMatch(re, term, f);
  }

  /** Both parts of a term have to hold. */
  lemma TermParts(re: Regexps, f: Features, feature: string, m: MatchExpressionSet, e: MatchExpression)
    ensures MatcherMatch(re, [Term(feature, Some(m), Some(e))], f) <==>
      MatcherMatch(re, [Term(feature, Some(m), None)], f) && MatcherMatch(re, [Term(feature, None, Some(e))], f)
  {
    var both, one, two := Term(feature, Some(m), Some(e)), Term(feature, Some(m), None), Term(feature, None, Some(e));
    assert [both][0] == both && [one][0] == one && [two][0] == two;
  }

  /** A rule on the names of a feature. */
  function OneName(feature: string, e: MatchExpression): Matchers {
    Matchers([], [Term(feature, None, Some(e))])
  }

  lemma OneMatches(re: Regexps, n: string, e: MatchExpression, values: Attrs)
    ensures ValuesMatch(re, map[n := e], values) <==> EvalAttr(re, e, n, values) == Ok(true)
  {
    assert n in map[n := e];
  }

  lemma OneUnion(re: Regexps, n: string, e: MatchExpression, keys: Option<set<string>>, values: Option<Attrs>)
    ensures UnionMatch(re, map[n := e], keys, values) <==>
      (keys.Some? || values.Some?) && UnionEval(re, e, n, keys, values) == Ok(true)
  {
    assert n in map[n := e];
  }

  lemma OneInstance(re: Regexps, n: string, e: MatchExpression, instances: seq<Attrs>)
    ensures InstancesMatch(re, map[n := e], instances) <==>
      exists i :: 0 <= i < |instances| && EvalAttr(re, e, n, instances[i]) == Ok(true)
  {
    forall i | 0 <= i < |instances|
      ensures Matches(re, map[n := e])(instances[i]) <==> EvalAttr(re, e, n, instances[i]) == Ok(true)
    {
      OneMatches(re, n, e, instances[i]);
    }
  }

  /** The feature of a one-term rule is looked up in lower case, and its flags and attributes count as one. */
  lemma OneTermRule(re: Regexps, f: Features, feature: string, n: string, e: MatchExpression)
    ensures var k := ToLower(feature);
      RuleMatch(re, OneTerm(feature, n, e), f) <==>
      || ((FlagsAt(f, k).Some? || AttrsAt(f, k).Some?) &&
        UnionEval(re, e, n, FlagsAt(f, k), AttrsAt(f, k)) == Ok(true))
      || exists i :: 0 <= i < |InstancesAt(f, k)| && EvalAttr(re, e, n, InstancesAt(f, k)[i]) == Ok(true)
  {
    var k, term := ToLower(feature), OneTerm(feature, n, e).matchFeatures[0];
    OneUnion(re, n, e, FlagsAt(f, k), AttrsAt(f, k));
    OneInstance(re, n, e, InstancesAt(f, k));
    assert RuleMatch(re, OneTerm(feature, n, e), f) <==> TermMatch(re, term, f);
  }

  /** The value of a name in some set of attributes of the feature satisfies the expression. */
  ghost predicate SomeValue(re: Regexps, op: MatchOp, value: seq<string>, attrs: Option<Attrs>, instances: seq<Attrs>,
      n: string)
  {
    || (n in NilKeys(attrs) && On(re, op, value, attrs.value[n]) == Ok(true))
    || exists i :: 0 <= i < |instances| && n in instances[i] && On(re, op, value, instances[i][n]) == Ok(true)
  }

  /** A rule on a value matches exactly when an attribute, or an instance, has the name with a value that does. */
  lemma ValueRule(re: Regexps, f: Features, feature: string, n: string, op: MatchOp, value: seq<string>)
    requires OnValue(op)
    ensures RuleMatch(re, OneTerm(feature, n, MatchExpression(op, value)), f) <==>
      SomeValue(re, op, value, AttrsAt(f, ToLower(feature)), InstancesAt(f, ToLower(feature)), n)
  {
    var k, e := ToLower(feature), MatchExpression(op, value);
    var attrs, instances := AttrsAt(f, k), InstancesAt(f, k);
    OneTermRule(re, f, feature, n, e);
    UnionOnValue(re, e, n, FlagsAt(f, k), attrs);
    forall i | 0 <= i < |instances|
      ensures EvalAttr(re, e, n, instances[i]) ==
        if n in instances[i] then On(re, op, value, instances[i][n]) else Ok(false)
    {
      AbsentFails(re, e, n, {}, instances[i]);
    }
  }

  /** A node with one attribute of one feature: `In` and `NotIn` with one value tell its value apart. */
  lemma InRule(re: Regexps, feature: string, n: string, v: string, w: string)
    ensures var f := Features(map[], map[ToLower(feature) := Some(map[n := v])], map[]);
      && (RuleMatch(re, OneTerm(feature, n, MatchExpression(MatchIn, [w])), f) <==> v == w)
      && (RuleMatch(re, OneTerm(feature, n, MatchExpression(MatchNotIn, [w])), f) <==> v != w)
  {
    var f := Features(map[], map[ToLower(feature) := Some(map[n := v])], map[]);
    ValueRule(re, f, feature, n, MatchIn, [w]);
    ValueRule(re, f, feature, n, MatchNotIn, [w]);
    InDecides(re, [w], [w], v, w);
    NotInDecides(re, [w], v);
  }

  /** The same with numbers. */
  lemma GtRule(re: Regexps, feature: string, n: string, x: int, y: int)
    requires -MAX_INT64 - 1 <= x <= MAX_INT64 && -MAX_INT64 - 1 <= y <= MAX_INT64
    ensures var f := Features(map[], map[ToLower(feature) := Some(map[n := FormatInt(x)])], map[]);
      && (RuleMatch(re, OneTerm(feature, n, MatchExpression(MatchGt, [FormatInt(y)])), f) <==> x > y)
      && (RuleMatch(re, OneTerm(feature, n, MatchExpression(MatchLt, [FormatInt(y)])), f) <==> x < y)
  {
    var f := Features(map[], map[ToLower(feature) := Some(map[n := FormatInt(x)])], map[]);
    ValueRule(re, f, feature, n, MatchGt, [FormatInt(y)]);
    ValueRule(re, f, feature, n, MatchLt, [FormatInt(y)]);
    CompareDecides(re, x, y);
  }

  /** A rule on presence looks at flags, attributes and instances. */
  lemma ExistsRule(re: Regexps, f: Features, feature: string, n: string)
    ensures var k := ToLower(feature);
      RuleMatch(re, OneTerm(feature, n, MatchExpression(MatchExists, [])), f) <==>
      || n in NilSet(FlagsAt(f, k)) || n in NilKeys(AttrsAt(f, k))
      || exists i :: 0 <= i < |InstancesAt(f, k)| && n in InstancesAt(f, k)[i]
  {
    var k, e := ToLower(feature), MatchExpression(MatchExists, []);
    var instances := InstancesAt(f, k);
    OneTermRule(re, f, feature, n, e);
    if FlagsAt(f, k).Some? || AttrsAt(f, k).Some? {
      UnionOnPresence(re, n, FlagsAt(f, k), AttrsAt(f, k));
    }
    forall i | 0 <= i < |instances| ensures EvalAttr(re, e, n, instances[i]) == Ok(n in instances[i]) {
      PresenceDecides(re, n, {}, instances[i]);
    }
  }

  /** Absence has to hold of flags and attributes both, if there are any, or of one instance. */
  lemma DoesNotExistRule(re: Regexps, f: Features, feature: string, n: string)
    ensures var k := ToLower(feature);
      RuleMatch(re, OneTerm(feature, n, MatchExpression(MatchDoesNotExist, [])), f) <==>
      || ((FlagsAt(f, k).Some? || AttrsAt(f, k).Some?) && n !in NilSet(FlagsAt(f, k)) && n !in NilKeys(AttrsAt(f, k)))
      || exists i :: 0 <= i < |InstancesAt(f, k)| && n !in InstancesAt(f, k)[i]
  {
    var k, e := ToLower(feature), MatchExpression(MatchDoesNotExist, []);
    var instances := InstancesAt(f, k);
    OneTermRule(re, f, feature, n, e);
    if FlagsAt(f, k).Some? || AttrsAt(f, k).Some? {
      UnionOnPresence(re, n, FlagsAt(f, k), AttrsAt(f, k));
    }
    forall i | 0 <= i < |instances| ensures EvalAttr(re, e, n, instances[i]) == Ok(n !in instances[i]) {
      PresenceDecides(re, n, {}, instances[i]);
    }
  }

  lemma SomeNameIn(re: Regexps, n: string, names: set<string>)
    ensures SomeName(re, MatchExpression(MatchIn, [n]), names) <==> n in names
  {
    var e := MatchExpression(MatchIn, [n]);
    forall m ensures EvalName(re, e, m) == Ok(m == n) {
      InDecides(re, [n], [n], m, n);
    }
  }

  /** A rule on names finds a name exactly where a rule on its presence does. */
  lemma NameRule(re: Regexps, f: Features, feature: string, n: string)
    ensures RuleMatch(re, OneName(feature, MatchExpression(MatchIn, [n])), f) <==>
      RuleMatch(re, OneTerm(feature, n, MatchExpression(MatchExists, [])), f)
  {
    var k, e := ToLower(feature), MatchExpression(MatchIn, [n]);
    var instances, term := InstancesAt(f, k), OneName(feature, e).matchFeatures[0];
    ExistsRule(re, f, feature, n);
    SomeNameIn(re, n, NilSet(FlagsAt(f, k)));
    SomeNameIn(re, n, NilKeys(AttrsAt(f, k)));
    forall i | 0 <= i < |instances| ensures Named(re, e)(instances[i]) <==> n in instances[i] {
      SomeNameIn(re, n, instances[i].Keys);
    }
    assert RuleMatch(re, OneName(feature, e), f) <==> TermMatch(re, term, f);
  }

  // ---- Larger rules ----

  /** More expressions on one set of attributes are a conjunction. */
  lemma ExpressionsConjoin(re: Regexps, a: MatchExpressionSet, b: MatchExpressionSet, values: Attrs)
    requires a.Keys !! b.Keys
    ensures ValuesMatch(re, a + b, values) <==> ValuesMatch(re, a, values) && ValuesMatch(re, b, values)
  {
    assert forall n :: n in a ==> (a + b)[n] == a[n];
    assert forall n :: n in b ==> (a + b)[n] == b[n];
  }

  /** More terms are a conjunction, whether under matchFeatures or in an element of matchAny. */
  lemma TermsConjoin(re: Regexps, a: FeatureMatcher, b: FeatureMatcher, f: Features)
    ensures MatcherMatch(re, a + b, f) <==> MatcherMatch(re, a, f) && MatcherMatch(re, b, f)
    ensures RuleMatch(re, Matchers([], a), f) <==> MatcherMatch(re, a, f)
    ensures RuleMatch(re, Matchers([a], b), f) <==> RuleMatch(re, Matchers([], a + b), f)
  {
    var ab := a + b;
    assert forall i :: 0 <= i < |a| ==> ab[i] == a[i];
    assert forall i :: 0 <= i < |b| ==> ab[|a| + i] == b[i];
    assert forall i :: |a| <= i < |ab| ==> ab[i] == b[i - |a|];
    assert [a][0] == a;
  }

  /** More elements of matchAny are a disjunction. */
  lemma ElementsDisjoin(re: Regexps, a: seq<FeatureMatcher>, b: seq<FeatureMatcher>, m: FeatureMatcher, f: Features)
    requires a != [] && b != []
    ensures RuleMatch(re, Matchers(a + b, m), f) <==>
      RuleMatch(re, Matchers(a, m), f) || RuleMatch(re, Matchers(b, m), f)
  {
    var ab := a + b;
    assert forall i :: 0 <= i < |a| ==> ab[i] == a[i];
    assert forall i :: 0 <= i < |b| ==> ab[|a| + i] == b[i];
    assert forall i :: |a| <= i < |ab| ==> ab[i] == b[i - |a|];
  }
}
