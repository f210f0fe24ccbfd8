/**
 Rules of the custom feature source: validation (source/custom/api/expression.go) and conversion to
 the types of the rule engine (source/custom/api/conversion.go). None is Go's nil.
 */
module CustomRules {
  import opened Strings
  import opened FeatureApi
  import opened MatchExpressions
  import opened RuleEngine

  datatype CustomExpression = CustomExpression(op: MatchOp, value: Option<seq<string>>)

  datatype CustomTerm = CustomTerm(
    feature: string,
    matchExpressions: Option<map<string, CustomExpression>>,
    matchName: Option<CustomExpression>)

  type CustomMatcher = Option<seq<CustomTerm>>

  datatype CustomRule = CustomRule(
    name: string, labels: Attrs, vars: Attrs,
    matchFeatures: CustomMatcher, matchAny: Option<seq<CustomMatcher>>)

  datatype Rule = Rule(name: string, labels: Attrs, vars: Attrs, matchers: Matchers)

  // ---- Validate ----

  predicate IsNumeric(op: MatchOp) {
    op == MatchGt || op == MatchLt || op == MatchGtLt
  }

  function Values(m: CustomExpression): seq<string> {
    if m.value.Some? then m.value.value else []
  }

  /** `MatchExpression.Validate`, true when it returns no error. */
  predicate Validate(re: Regexps, m: CustomExpression) {
    var v := Values(m);
    match m.op
    case Unknown(_) => false
    case MatchExists => v == []
    case MatchDoesNotExist => v == []
    case MatchIsTrue => v == []
    case MatchIsFalse => v == []
    case MatchAny => v == []
    case MatchGt => |v| == 1 && Atoi(v[0]).Some?
    case MatchLt => |v| == 1 && Atoi(v[0]).Some?
    case MatchGtLt => |v| == 2 && Atoi(v[0]).Some? && Atoi(v[1]).Some? && Atoi(v[0]).value < Atoi(v[1]).value
    case MatchInRegexp => v != [] && forall i :: 0 <= i < |v| ==> re.compiles(v[i])
    case MatchIn => v != []
    case MatchNotIn => v != []
  }

  // ---- Conversion ----

  function ConvertedExpression(m: CustomExpression): MatchExpression {
    MatchExpression(m.op, Values(m))
  }

  function ConvertedSet(m: map<string, CustomExpression>): MatchExpressionSet {
    map k | k in m :: ConvertedExpression(m[k])
  }

  function ConvertedTerm(t: CustomTerm): FeatureMatcherTerm {
    Term(t.feature,
      if t.matchExpressions.Some? then Some(ConvertedSet(t.matchExpressions.value)) else None,
      if t.matchName.Some? then Some(ConvertedExpression(t.matchName.value)) else None)
  }

  function ConvertedMatcher(m: CustomMatcher): FeatureMatcher {
    if m.None? then [] else seq(|m.value|, i requires 0 <= i < |m.value| => ConvertedTerm(m.value[i]))
  }

  function ConvertedRule(r: CustomRule): Rule {
    Rule(r.name, r.labels, r.vars, Matchers(
      if r.matchAny.None? then []
      else seq(|r.matchAny.value|, i requires 0 <= i < |r.matchAny.value| => ConvertedMatcher(r.matchAny.value[i])),
      ConvertedMatcher(r.matchFeatures)))
  }

  // ---- What conversion keeps ----

  /** Operator and values are the same; nil values count as none. */
  predicate SameExpression(e: CustomExpression, c: MatchExpression) {
    c.op == e.op && (e.value.None? ==> c.value == []) && (e.value.Some? ==> c.value == e.value.value)
  }

  ghost predicate SameTerm(t: CustomTerm, c: FeatureMatcherTerm) {
    && c.feature == t.feature
    && (c.matchExpressions.Some? <==> t.matchExpressions.Some?)
    && (t.matchExpressions.Some? ==>
      && c.matchExpressions.value.Keys == t.matchExpressions.value.Keys
      && forall k :: k in t.matchExpressions.value ==>
        SameExpression(t.matchExpressions.value[k], c.matchExpressions.value[k]))
    && (c.matchName.Some? <==> t.matchName.Some?)
    && (t.matchName.Some? ==> SameExpression(t.matchName.value, c.matchName.value))
  }

  /** Term by term. */
  ghost predicate SameMatcher(m: CustomMatcher, c: FeatureMatcher) {
    && |c| == (if m.Some? then |m.value| else 0)
    && forall i :: 0 <= i < |c| ==> SameTerm(m.value[i], c[i])
  }

  ghost predicate SameRule(r: CustomRule, c: Rule) {
    && c.name == r.name && c.labels == r.labels && c.vars == r.vars
    && SameMatcher(r.matchFeatures, c.matchers.matchFeatures)
    && |c.matchers.matchAny| == (if r.matchAny.Some? then |r.matchAny.value| else 0)
    && forall i :: 0 <= i < |c.matchers.matchAny| ==> SameMatcher(r.matchAny.value[i], c.matchers.matchAny[i])
  }

  /** `convertFeaturematchertermToV1alpha1`. */
  method ConvertTerm(t: CustomTerm) returns (out: FeatureMatcherTerm)
    ensures out == ConvertedTerm(t) && SameTerm(t, out)
  {
    out := Term(t.feature, None, None);
    if t.matchExpressions.Some? {
      var inME := t.matchExpressions.value;
      var outME: MatchExpressionSet := map[];
      var todo := inME.Keys;
      while todo != {}
        invariant todo <= inME.Keys && outME.Keys == inME.Keys - todo
        invariant forall k :: k in outME ==> outME[k] == ConvertedExpression(inME[k])
      {
        var key :| key in todo;
        todo := todo - {key};
        outME := outME[key := ConvertedExpression(inME[key])];
      }
      out := out.(matchExpressions := Some(outME));
      assert outME == ConvertedSet(inME);
    }
    if t.matchName.Some? {
      out := out.(matchName := Some(ConvertedExpression(t.matchName.value)));
    }
  }

  /** `convertMatchanyelemToV1alpha1` and the loop over matchFeatures. */
  method ConvertMatcher(m: CustomMatcher) returns (out: FeatureMatcher)
    ensures out == ConvertedMatcher(m) && SameMatcher(m, out)
  {
    out := [];
    if m.Some? {
      for i := 0 to |m.value|
        invariant |out| == i
        invariant forall j :: 0 <= j < i ==> out[j] == ConvertedTerm(m.value[j]) && SameTerm(m.value[j], out[j])
      {
        var t := ConvertTerm(m.value[i]);
        out := out + [t];
      }
    }
  }

  /** `ConvertRuleToV1alpha1`. */
  method ConvertRule(r: CustomRule) returns (out: Rule)
    ensures out == ConvertedRule(r) && SameRule(r, out)
  {
    var features := ConvertMatcher(r.matchFeatures);
    var any: seq<FeatureMatcher> := [];
    if r.matchAny.Some? {
      for i := 0 to |r.matchAny.value|
        invariant |any| == i
        invariant forall j :: 0 <= j < i ==>
          any[j] == ConvertedMatcher(r.matchAny.value[j]) && SameMatcher(r.matchAny.value[j], any[j])
      {
        var m := ConvertMatcher(r.matchAny.value[i]);
        any := any + [m];
      }
    }
    out := Rule(r.name, r.labels, r.vars, Matchers(any, features));
  }

  // ---- What validation buys ----

  /** Inputs on which a numeric operator has a number to work with. */
  predicate NumberGiven(op: MatchOp, valid: bool, input: Option<string>) {
    IsNumeric(op) && valid && input.Some? ==> Atoi(input.value).Some?
  }

  /** A validated expression errs exactly when a numeric operator meets a present non-integer input. */
  lemma ValidatedEval(re: Regexps, m: CustomExpression, valid: bool, input: Option<string>)
    requires Validate(re, m)
    ensures Eval(re, ConvertedExpression(m), valid, input).Err? <==> !NumberGiven(m.op, valid, input)
  {
  }

  lemma InvalidEval(re: Regexps, m: CustomExpression)
    requires !Validate(re, m)
    ensures Eval(re, ConvertedExpression(m), true, Some("0")).Err?
  {
    assert ParseDigits("0") == Some(0);
  }

  /** Validation accepts an expression exactly when it cannot err on any input that suits its operator. */
  lemma ValidateExactly(re: Regexps, m: CustomExpression)
    ensures Validate(re, m) <==>
      forall valid, input :: NumberGiven(m.op, valid, input) ==> Eval(re, ConvertedExpression(m), valid, input).Ok?
  {
    if Validate(re, m) {
      forall valid, input | NumberGiven(m.op, valid, input) ensures Eval(re, ConvertedExpression(m), valid, input).Ok? {
        ValidatedEval(re, m, valid, input);
      }
    } else {
      InvalidEval(re, m);
      assert ParseDigits("0") == Some(0);
      assert NumberGiven(m.op, true, Some("0"));
    }
  }

  // ---- Whole rules ----

  predicate SafeExpression(re: Regexps, m: CustomExpression) {
    Validate(re, m) && !IsNumeric(m.op)
  }

  ghost predicate SafeTerm(re: Regexps, t: CustomTerm) {
    && (t.matchExpressions.Some? ==> forall k :: k in t.matchExpressions.value ==>
      SafeExpression(re, t.matchExpressions.value[k]))
    && (t.matchName.Some? ==> SafeExpression(re, t.matchName.value))
  }

  ghost predicate SafeMatcher(re: Regexps, m: CustomMatcher) {
    m.Some? ==> forall i :: 0 <= i < |m.value| ==> SafeTerm(re, m.value[i])
  }

  ghost predicate SafeRule(re: Regexps, r: CustomRule) {
    && SafeMatcher(re, r.matchFeatures)
    && (r.matchAny.Some? ==> forall i :: 0 <= i < |r.matchAny.value| ==> SafeMatcher(re, r.matchAny.value[i]))
  }

  lemma SafeEval(re: Regexps, m: CustomExpression, valid: bool, input: Option<string>)
    requires SafeExpression(re, m)
    ensures Eval(re, ConvertedExpression(m), valid, input).Ok?
  {
    ValidatedEval(re, m, valid, input);
  }

  ghost predicate SafeSet(re: Regexps, m: MatchExpressionSet) {
    forall n :: n in m ==> SafeHere(re, m[n])
  }

  /** An engine-side expression that never errs. */
  ghost predicate SafeHere(re: Regexps, e: MatchExpression) {
    forall valid, input :: Eval(re, e, valid, input).Ok?
  }

  lemma SafeConverted(re: Regexps, m: CustomExpression)
    requires SafeExpression(re, m)
    ensures SafeHere(re, ConvertedExpression(m))
  {
    forall valid, input ensures Eval(re, ConvertedExpression(m), valid, input).Ok? {
      SafeEval(re, m, valid, input);
    }
  }

  lemma SafeMulti(re: Regexps, m: MatchExpressionSet, keys: Option<set<string>>, values: Option<Attrs>,
      instances: seq<Attrs>)
    requires SafeSet(re, m)
    ensures !MultiErr(re, m, keys, values, instances)
  {
    forall n | n in m ensures UnionEval(re, m[n], n, keys, values).Ok? {
      assert SafeHere(re, m[n]);
    }
    forall i, n | 0 <= i < |instances| && n in m ensures EvalAttr(re, m[n], n, instances[i]).Ok? {
      assert SafeHere(re, m[n]);
    }
  }

  lemma SafeNames(re: Regexps, e: MatchExpression, keys: Option<set<string>>, values: Option<Attrs>,
      instances: seq<Attrs>)
    requires SafeHere(re, e)
    ensures !NamesMultiErr(re, e, keys, values, instances)
  {
  }

  lemma SafeConvertedTerm(re: Regexps, t: CustomTerm, f: Features)
    requires SafeTerm(re, t)
    ensures !TermErr(re, ConvertedTerm(t), f)
  {
    var c := ConvertedTerm(t);
    var name := ToLower(c.feature);
    if t.matchExpressions.Some? {
      forall k | k in c.matchExpressions.value ensures SafeHere(re, c.matchExpressions.value[k]) {
        SafeConverted(re, t.matchExpressions.value[k]);
      }
      SafeMulti(re, c.matchExpressions.value, FlagsAt(f, name), AttrsAt(f, name), InstancesAt(f, name));
    }
    if t.matchName.Some? {
      SafeConverted(re, t.matchName.value);
      SafeNames(re, c.matchName.value, FlagsAt(f, name), AttrsAt(f, name), InstancesAt(f, name));
    }
  }

  lemma SafeConvertedMatcher(re: Regexps, m: CustomMatcher, f: Features)
    requires SafeMatcher(re, m)
    ensures !MatcherErr(re, ConvertedMatcher(m), f)
  {
    var c := ConvertedMatcher(m);
    forall i | 0 <= i < |c| ensures !TermErr(re, c[i], f) {
      SafeConvertedTerm(re, m.value[i], f);
    }
  }

  /**
   A converted rule made of validated, non-numeric expressions has one verdict on every feature set,
   and no execution of it can end in an error.
   */
  lemma ConvertedRuleExecutes(re: Regexps, r: CustomRule, f: Features, c: Choices, failFast: bool)
    requires SafeRule(re, r)
    requires Evaluated(re, ConvertedRule(r).matchers, f, c)
    ensures var m := ConvertedRule(r).matchers;
      ExecuteOn(|m.matchAny|, m.matchFeatures != [], c, failFast) == Ok(RuleMatch(re, m, f))
  {
    var m := ConvertedRule(r).matchers;
    SafeConvertedMatcher(re, r.matchFeatures, f);
    forall i | 0 <= i < |m.matchAny| ensures !MatcherErr(re, m.matchAny[i], f) {
      SafeConvertedMatcher(re, r.matchAny.value[i], f);
    }
    ExecuteOutcome(re, m, f, c, failFast);
  }
}
