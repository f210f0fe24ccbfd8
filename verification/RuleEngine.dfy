/** Rules over a feature set, without templates: pkg/apis/nfd/nodefeaturerule/rule.go. */
module RuleEngine {
  import opened Strings
  import opened FeatureApi
  import opened MatchExpressions

  // ---- What a rule says ----

  predicate Available(f: Features, feature: string) {
    feature in f.flags || feature in f.attributes || feature in f.instances
  }

  ghost predicate TermMatch(re: Regexps, t: FeatureMatcherTerm, f: Features) {
    var name := ToLower(t.feature);
    && Available(f, name)
    && (t.matchExpressions.Some? ==>
      MultiMatch(re, t.matchExpressions.value, FlagsAt(f, name), AttrsAt(f, name), InstancesAt(f, name)))
    && (t.matchName.Some? ==>
      NamesMultiMatch(re, t.matchName.value, FlagsAt(f, name), AttrsAt(f, name), InstancesAt(f, name)))
  }

  ghost predicate TermErr(re: Regexps, t: FeatureMatcherTerm, f: Features) {
    var name := ToLower(t.feature);
    && Available(f, name)
    && var flags, attrs, instances := FlagsAt(f, name), AttrsAt(f, name), InstancesAt(f, name);
      || (t.matchExpressions.Some? && MultiErr(re, t.matchExpressions.value, flags, attrs, instances))
      || (t.matchName.Some? && NamesMultiErr(re, t.matchName.value, flags, attrs, instances))
  }

  ghost predicate MatcherMatch(re: Regexps, m: FeatureMatcher, f: Features) {
    forall i :: 0 <= i < |m| ==> TermMatch(re, m[i], f)
  }

  ghost predicate MatcherErr(re: Regexps, m: FeatureMatcher, f: Features) {
    exists i :: 0 <= i < |m| && TermErr(re, m[i], f)
  }

  /** Some element of matchAny, if there are any, and every term of matchFeatures. */
  ghost predicate RuleMatch(re: Regexps, r: Matchers, f: Features) {
    && (r.matchAny == [] || exists i :: 0 <= i < |r.matchAny| && MatcherMatch(re, r.matchAny[i], f))
    && MatcherMatch(re, r.matchFeatures, f)
  }

  ghost predicate RuleErr(re: Regexps, r: Matchers, f: Features) {
    || (exists i :: 0 <= i < |r.matchAny| && MatcherErr(re, r.matchAny[i], f))
    || MatcherErr(re, r.matchFeatures, f)
  }

  /** The outcomes a matcher may have: a verdict is always the right one, an error has a cause. */
  ghost predicate MatcherOutcome(re: Regexps, m: FeatureMatcher, f: Features, v: Verdict) {
    if v.Ok? then v.matched <==> MatcherMatch(re, m, f) else MatcherErr(re, m, f)
  }

  ghost predicate RuleOutcome(re: Regexps, r: Matchers, f: Features, v: Verdict) {
    if v.Ok? then v.matched <==> RuleMatch(re, r, f) else RuleErr(re, r, f)
  }

  // ---- evaluateFeatureMatcher ----

  /**
   One term of `evaluateFeatureMatcher`. `carried` is the flag left by the terms before it, which a
   term without expressions does not reset.
   */
  method EvaluateTerm(re: Regexps, term: FeatureMatcherTerm, f: Features, failFast: bool, carried: bool)
    returns (r: Verdict)
    requires Available(f, ToLower(term.feature))
    ensures r.Ok? ==> (r.matched <==> (carried || term.matchExpressions.Some?) && TermMatch(re, term, f))
    ensures r.Err? ==> TermErr(re, term, f)
  {
    var name := ToLower(term.feature);
    var keys, values, instances := FlagsAt(f, name), AttrsAt(f, name), InstancesAt(f, name);
    r := Ok(carried);
    if term.matchExpressions.Some? {
      r := MatchMulti(re, term.matchExpressions.value, keys, values, instances, failFast);
    }
    if r.Ok? && r.matched && term.matchName.Some? {
      r := MatchNamesMulti(re, term.matchName.value, keys, values, instances);
    }
  }

  /** `evaluateFeatureMatcher` (verdict). */
  method EvaluateFeatureMatcher(re: Regexps, m: FeatureMatcher, f: Features, failFast: bool) returns (r: Verdict)
    ensures MatcherOutcome(re, m, f, r)
  {
    var isMatch, isTermMatch := true, true;
    for i := 0 to |m|
      invariant isMatch <==> forall j :: 0 <= j < i ==> TermMatch(re, m[j], f)
      invariant isMatch ==> isTermMatch
      invariant failFast ==> isMatch
    {
      if !Available(f, ToLower(m[i].feature)) {
        assert !TermMatch(re, m[i], f);
        if failFast { return Ok(false); }
        isMatch := false;
        continue;
      }
      var t := EvaluateTerm(re, m[i], f, failFast, isTermMatch);
      if t.Err? { return Err; }
      isTermMatch := t.matched;
      if !isTermMatch {
        if failFast { return Ok(false); }
        isMatch := false;
      }
    }
    return Ok(isMatch);
  }

  // ---- Execute and ExecuteGroupRule ----

  /** Outcomes of the evaluations a rule makes: matchAny elements by index, then matchFeatures. */
  type Choices = nat -> Verdict

  function AnyLoop(n: nat, i: nat, c: Choices, failFast: bool, isMatch: bool): Verdict
    requires i <= n
    decreases n - i
  {
    if i == n then Ok(isMatch)
    else if c(i).Err? then Err
    else if c(i).matched && failFast then Ok(true)
    else AnyLoop(n, i + 1, c, failFast, isMatch || c(i).matched)
  }

  /** The control flow of `Execute` over given outcomes. */
  function ExecuteOn(n: nat, hasFeatures: bool, c: Choices, failFast: bool): Verdict {
    var any := if n > 0 then AnyLoop(n, 0, c, failFast, false) else Ok(true);
    if any.Err? || !any.matched then any else if hasFeatures then c(n) else Ok(true)
  }

  function FirstMatch(n: nat, i: nat, c: Choices): Verdict
    requires i <= n
    decreases n - i
  {
    if i == n then Ok(false)
    else if c(i).Err? then Err
    else if c(i).matched then Ok(true)
    else FirstMatch(n, i + 1, c)
  }

  /** The control flow of `ExecuteGroupRule` over given outcomes. */
  function GroupOn(n: nat, hasFeatures: bool, c: Choices): Verdict {
    if n > 0 && FirstMatch(n, 0, c).Err? then Err
    else if n > 0 && !FirstMatch(n, 0, c).matched then Ok(false)
    else if !hasFeatures then Ok(true)
    else c(n)
  }

  lemma {:induction false} AnyLoopIsFirstMatch(n: nat, i: nat, c: Choices)
    requires i <= n
    ensures AnyLoop(n, i, c, true, false) == FirstMatch(n, i, c)
    decreases n - i
  {
    if i < n && c(i).Ok? && !c(i).matched {
      AnyLoopIsFirstMatch(n, i + 1, c);
    }
  }

  /** Failing fast and under the same choices, a group rule and a rule come to the same verdict or error. */
  lemma GroupAgrees(n: nat, hasFeatures: bool, c: Choices)
    ensures ExecuteOn(n, hasFeatures, c, true) == GroupOn(n, hasFeatures, c)
  {
    AnyLoopIsFirstMatch(n, 0, c);
  }

  ghost predicate Evaluated(re: Regexps, r: Matchers, f: Features, c: Choices) {
    && (forall i :: 0 <= i < |r.matchAny| ==> MatcherOutcome(re, r.matchAny[i], f, c(i)))
    && MatcherOutcome(re, r.matchFeatures, f, c(|r.matchAny|))
  }

  lemma {:induction false} AnyLoopOutcome(re: Regexps, r: Matchers, f: Features, c: Choices, i: nat, failFast: bool,
      isMatch: bool)
    requires i <= |r.matchAny| && Evaluated(re, r, f, c)
    requires isMatch <==> exists j :: 0 <= j < i && MatcherMatch(re, r.matchAny[j], f)
    ensures var v := AnyLoop(|r.matchAny|, i, c, failFast, isMatch);
      if v.Ok? then v.matched <==> exists j :: 0 <= j < |r.matchAny| && MatcherMatch(re, r.matchAny[j], f)
      else exists j :: 0 <= j < |r.matchAny| && MatcherErr(re, r.matchAny[j], f)
    decreases |r.matchAny| - i
  {
    if i < |r.matchAny| {
      assert MatcherOutcome(re, r.matchAny[i], f, c(i));
      if c(i).Ok? && !(c(i).matched && failFast) {
        AnyLoopOutcome(re, r, f, c, i + 1, failFast, isMatch || c(i).matched);
      }
    }
  }

  /** Whatever the choices, a verdict of the control flow is the logical one and an error has a cause. */
  lemma ExecuteOutcome(re: Regexps, r: Matchers, f: Features, c: Choices, failFast: bool)
    requires Evaluated(re, r, f, c)
    ensures RuleOutcome(re, r, f, ExecuteOn(|r.matchAny|, r.matchFeatures != [], c, failFast))
  {
    AnyLoopOutcome(re, r, f, c, 0, failFast, false);
    assert MatcherOutcome(re, r.matchFeatures, f, c(|r.matchAny|));
  }

  /**
   A rule whose expressions all evaluate without error has one verdict: the same failing fast or not,
   in every iteration order.
   */
  lemma VerdictDetermined(re: Regexps, r: Matchers, f: Features, fast: Choices, slow: Choices)
    requires !RuleErr(re, r, f) && Evaluated(re, r, f, fast) && Evaluated(re, r, f, slow)
    ensures ExecuteOn(|r.matchAny|, r.matchFeatures != [], fast, true) == Ok(RuleMatch(re, r, f))
    ensures ExecuteOn(|r.matchAny|, r.matchFeatures != [], slow, false) == Ok(RuleMatch(re, r, f))
    ensures GroupOn(|r.matchAny|, r.matchFeatures != [], fast) == Ok(RuleMatch(re, r, f))
  {
    ExecuteOutcome(re, r, f, fast, true);
    ExecuteOutcome(re, r, f, slow, false);
    GroupAgrees(|r.matchAny|, r.matchFeatures != [], fast);
  }

  /** Complete the outcomes seen so far with ones that the matchers not evaluated could have had. */
  ghost function Completed(re: Regexps, r: Matchers, f: Features, seen: seq<Verdict>, last: Option<Verdict>): Choices {
    (i: nat) =>
      if i < |seen| then seen[i]
      else if i < |r.matchAny| then Ok(MatcherMatch(re, r.matchAny[i], f))
      else if last.Some? then last.value
      else Ok(MatcherMatch(re, r.matchFeatures, f))
  }

  ghost predicate Seen(re: Regexps, r: Matchers, f: Features, seen: seq<Verdict>) {
    && |seen| <= |r.matchAny|
    && forall i :: 0 <= i < |seen| ==> MatcherOutcome(re, r.matchAny[i], f, seen[i])
  }

  lemma CompletedEvaluated(re: Regexps, r: Matchers, f: Features, seen: seq<Verdict>, last: Option<Verdict>)
    requires Seen(re, r, f, seen) && (last.Some? ==> MatcherOutcome(re, r.matchFeatures, f, last.value))
    ensures Evaluated(re, r, f, Completed(re, r, f, seen, last))
  {
  }

  /** The loop of `Execute` over matchAny, with the outcomes it saw. */
  method ExecuteAny(re: Regexps, r: Matchers, f: Features, failFast: bool)
    returns (v: Verdict, ghost seen: seq<Verdict>)
    ensures Seen(re, r, f, seen)
    ensures forall last :: v == AnyLoop(|r.matchAny|, 0, Completed(re, r, f, seen, last), failFast, false)
  {
    var isMatch := false;
    seen := [];
    for i := 0 to |r.matchAny|
      invariant Seen(re, r, f, seen) && |seen| == i
      invariant forall j :: 0 <= j < i ==> seen[j].Ok? && !(seen[j].matched && failFast)
      invariant isMatch <==> exists j :: 0 <= j < i && seen[j] == Ok(true)
    {
      var matched := EvaluateFeatureMatcher(re, r.matchAny[i], f, failFast);
      seen := seen + [matched];
      if matched.Err? {
        LoopStops(re, r, f, seen, failFast);
        return Err, seen;
      }
      if matched.matched {
        isMatch := true;
        if failFast {
          LoopStops(re, r, f, seen, failFast);
          return Ok(true), seen;
        }
      }
    }
    LoopEnds(re, r, f, seen, failFast);
    v := Ok(isMatch);
  }

  lemma {:induction false} LoopAt(n: nat, i: nat, c: Choices, failFast: bool, isMatch: bool, k: nat)
    requires i <= k <= n
    requires forall j :: i <= j < k ==> c(j).Ok? && !(c(j).matched && failFast)
    ensures AnyLoop(n, i, c, failFast, isMatch) ==
      AnyLoop(n, k, c, failFast, isMatch || exists j :: i <= j < k && c(j) == Ok(true))
    decreases k - i
  {
    if i < k {
      LoopAt(n, i + 1, c, failFast, isMatch || c(i).matched, k);
      assert c(i) == Ok(c(i).matched);
    }
  }

  lemma LoopStops(re: Regexps, r: Matchers, f: Features, seen: seq<Verdict>, failFast: bool)
    requires Seen(re, r, f, seen) && seen != []
    requires forall j :: 0 <= j < |seen| - 1 ==> seen[j].Ok? && !(seen[j].matched && failFast)
    requires var last := seen[|seen| - 1]; last.Err? || (last.matched && failFast)
    ensures forall x :: AnyLoop(|r.matchAny|, 0, Completed(re, r, f, seen, x), failFast, false) == seen[|seen| - 1]
  {
    forall x ensures AnyLoop(|r.matchAny|, 0, Completed(re, r, f, seen, x), failFast, false) == seen[|seen| - 1] {
      LoopAt(|r.matchAny|, 0, Completed(re, r, f, seen, x), failFast, false, |seen| - 1);
    }
  }

  lemma LoopEnds(re: Regexps, r: Matchers, f: Features, seen: seq<Verdict>, failFast: bool)
    requires Seen(re, r, f, seen) && |seen| == |r.matchAny|
    requires forall j :: 0 <= j < |seen| ==> seen[j].Ok? && !(seen[j].matched && failFast)
    ensures forall x :: (AnyLoop(|r.matchAny|, 0, Completed(re, r, f, seen, x), failFast, false) ==
      Ok(exists j :: 0 <= j < |seen| && seen[j] == Ok(true)))
  {
    forall x ensures AnyLoop(|r.matchAny|, 0, Completed(re, r, f, seen, x), failFast, false) ==
      Ok(exists j :: 0 <= j < |seen| && seen[j] == Ok(true))
    {
      var c := Completed(re, r, f, seen, x);
      LoopAt(|r.matchAny|, 0, c, failFast, false, |seen|);
      assert (exists j :: 0 <= j < |seen| && c(j) == Ok(true)) <==>
        (exists j :: 0 <= j < |seen| && seen[j] == Ok(true)) by {
        assert forall j :: 0 <= j < |seen| ==> c(j) == seen[j];
      }
    }
  }

  /** The matching part of `Execute`: the verdict, and the choices under which it came about. */
  method ExecuteMatchers(re: Regexps, r: Matchers, f: Features, failFast: bool) returns (v: Verdict, ghost c: Choices)
    ensures Evaluated(re, r, f, c)
    ensures v == ExecuteOn(|r.matchAny|, r.matchFeatures != [], c, failFast)
    ensures RuleOutcome(re, r, f, v)
  {
    ghost var seen := [];
    ghost var last := None;
    v := Ok(true);
    if |r.matchAny| > 0 {
      v, seen := ExecuteAny(re, r, f, failFast);
    }
    if v.Ok? && v.matched && r.matchFeatures != [] {
      v := EvaluateFeatureMatcher(re, r.matchFeatures, f, failFast);
      last := Some(v);
    }
    c := Completed(re, r, f, seen, last);
    CompletedEvaluated(re, r, f, seen, last);
    ExecuteOutcome(re, r, f, c, failFast);
  }

  /** The loop of `ExecuteGroupRule` over matchAny, which stops at the first match. */
  method GroupAny(re: Regexps, r: Matchers, f: Features, failFast: bool) returns (v: Verdict, ghost seen: seq<Verdict>)
    ensures Seen(re, r, f, seen)
    ensures forall last :: v == AnyLoop(|r.matchAny|, 0, Completed(re, r, f, seen, last), true, false)
  {
    seen := [];
    for i := 0 to |r.matchAny|
      invariant Seen(re, r, f, seen) && |seen| == i
      invariant forall j :: 0 <= j < i ==> seen[j] == Ok(false)
    {
      var m := EvaluateFeatureMatcher(re, r.matchAny[i], f, failFast);
      seen := seen + [m];
      if m.Err? || m.matched {
        LoopStops(re, r, f, seen, true);
        return m, seen;
      }
    }
    LoopEnds(re, r, f, seen, true);
    v := Ok(false);
  }

  /** `ExecuteGroupRule`. */
  method ExecuteGroupRule(re: Regexps, r: Matchers, f: Features, failFast: bool) returns (v: Verdict, ghost c: Choices)
    ensures Evaluated(re, r, f, c)
    ensures v == GroupOn(|r.matchAny|, r.matchFeatures != [], c)
    ensures RuleOutcome(re, r, f, v)
  {
    ghost var seen := [];
    ghost var last := None;
    v := Ok(true);
    if |r.matchAny| > 0 {
      v, seen := GroupAny(re, r, f, failFast);
    }
    if v.Ok? && v.matched && r.matchFeatures != [] {
      v := EvaluateFeatureMatcher(re, r.matchFeatures, f, failFast);
      last := Some(v);
    }
    c := Completed(re, r, f, seen, last);
    CompletedEvaluated(re, r, f, seen, last);
    ExecuteOutcome(re, r, f, c, true);
    GroupAgrees(|r.matchAny|, r.matchFeatures != [], c);
  }
}
