/**
 Chains of rules: `processNodeFeatureRule` of pkg/nfd-master/nfd-master.go feeds the output of each rule
 back into the features, through `InsertAttributeFeatures` of api/nfd/v1alpha1/feature.go, which stores
 the first map it is given by reference. Go maps are objects here, so that sharing is visible.
 */
module RuleChain {
  import opened Strings
  import opened FeatureApi
  import opened MatchExpressions
  import opened RuleEngine
  import opened Tracking
  import Namespacing

  /** A rule object in the informer cache. */
  class RuleObject {
    const matchers: Matchers
    const labels: Elements<string>
    const vars: Elements<string>

    constructor (matchers: Matchers, labels: Elements<string>, vars: Elements<string>)
      ensures this.matchers == matchers && this.labels == labels && this.vars == vars
    {
      this.matchers, this.labels, this.vars := matchers, labels, vars;
    }
  }

  const MATCHED := "rule.matched"

  /** The features of one node, as `Features` holds them; a null map is Go's nil. */
  class FeatureStore {
    const flags: map<string, Option<set<string>>>
    const instances: map<string, seq<Attrs>>
    var attributes: map<string, Elements?<string>>

    constructor (flags: map<string, Option<set<string>>>, attributes: map<string, Elements?<string>>,
        instances: map<string, seq<Attrs>>)
      ensures this.flags == flags && this.attributes == attributes && this.instances == instances
    {
      this.flags, this.attributes, this.instances := flags, attributes, instances;
    }

    ghost function Maps(): set<Elements?<string>>
      reads this
    {
      set k | k in attributes :: attributes[k]
    }

    /** Two features never share a map. */
    ghost predicate Unshared()
      reads this
    {
      forall k, l :: k in attributes && l in attributes && k != l && attributes[k] != null ==>
        attributes[k] != attributes[l]
    }

    function Content(): Features
      reads this, set k | k in attributes && attributes[k] != null :: attributes[k]
    {
      var content := map k | k in attributes :: if attributes[k] == null then None else Some(attributes[k].m);
      Features(flags, content, instances)
    }

    /**
     `InsertAttributeFeatures`: an absent feature takes the given map itself, not a copy. Writing into a
     nil map panics (false), copying nothing into it does not.
     */
    method InsertAttributeFeatures(key: string, values: Elements?<string>) returns (ok: bool)
      modifies this, if key in attributes && attributes[key] != null then {attributes[key]} else {}
      ensures forall k :: k in old(attributes) ==> k in attributes && attributes[k] == old(attributes[k])
      ensures attributes.Keys == old(attributes.Keys) + {key}
      ensures ok <==> !(key in old(attributes) && old(attributes)[key] == null && old(NilMap(values)) != map[])
      ensures key !in old(attributes) && values != null ==> attributes[key] == values
      ensures key !in old(attributes) && values == null ==>
        attributes[key] != null && fresh(attributes[key]) && attributes[key].m == map[]
      ensures key in old(attributes) ==>
        NilMap(attributes[key]) == old(NilMap(attributes[key])) + (if ok then old(NilMap(values)) else map[])
    {
      ok := true;
      if key !in attributes {
        var stored := values;
        if stored == null { stored := new Elements<string>(map[]); }
        attributes := attributes[key := stored];
        return;
      }
      var elements := attributes[key];
      if elements != null {
        elements.m := elements.m + NilMap(values);
      } else {
        ok := NilMap(values) == map[];
      }
    }
  }

  /** What one rule contributed: nothing when it failed, empty maps when it did not match. */
  datatype Output = Failed | Done(labels: Attrs, vars: Attrs)

  /** `Execute`, without templates: the output maps are new ones, filled from the rule. */
  method Execute(re: Regexps, rule: RuleObject, features: FeatureStore, failFast: bool)
    returns (v: Verdict, labels: Elements?<string>, vars: Elements?<string>)
    ensures RuleOutcome(re, rule.matchers, features.Content(), v)
    ensures v == Ok(true) ==> labels != null && vars != null && labels != vars && fresh(labels) && fresh(vars)
    ensures v == Ok(true) ==> labels.m == rule.labels.m && vars.m == rule.vars.m
    ensures v != Ok(true) ==> labels == null && vars == null
  {
    labels, vars := null, null;
    ghost var c;
    v, c := ExecuteMatchers(re, rule.matchers, features.Content(), failFast);
    if v == Ok(true) {
      labels := new Elements<string>(rule.labels.m);
      vars := new Elements<string>(rule.vars.m);
    }
  }

  // ---- Specification of a chain ----

  /** The back-reference feature after some outputs: labels then vars of each, over what was there. */
  function Backref(start: Option<Attrs>, outs: seq<Output>): Option<Attrs> {
    if outs == [] then start
    else
      var k := |outs| - 1;
      var before := Backref(start, outs[..k]);
      if outs[k].Failed? then before
      else Some((if before.Some? then before.value else map[]) + outs[k].labels + outs[k].vars)
  }

  function WithMatched(f: Features, matched: Option<Attrs>): Features {
    if matched.None? then f else f.(attributes := f.attributes[MATCHED := matched])
  }

  function MatchedOf(f: Features): Option<Attrs> {
    if MATCHED in f.attributes then f.attributes[MATCHED] else None
  }

  /** What a rule may contribute on the features it sees. */
  ghost predicate OutputOf(re: Regexps, matchers: Matchers, labels: Attrs, vars: Attrs, seen: Features, out: Output) {
    match out
    case Failed => RuleErr(re, matchers, seen)
    case Done(l, v) => if RuleMatch(re, matchers, seen) then l == labels && v == vars else l == map[] && v == map[]
  }

  /** The back-reference feature is there with a nil map. */
  predicate NilMatched(f: Features) {
    MATCHED in f.attributes && f.attributes[MATCHED].None?
  }

  /** An output that writes something into the back-reference feature. */
  predicate Loud(out: Output) {
    out.Done? && (out.labels != map[] || out.vars != map[])
  }

  ghost function MatchedMap(features: FeatureStore): set<object>
    reads features
  {
    var matched := if MATCHED in features.attributes then features.attributes[MATCHED] else null;
    if matched == null then {} else {matched}
  }

  /** The two insertions after a rule. The second one may write into `labels` itself. */
  method Feedback(features: FeatureStore, labels: Elements?<string>, vars: Elements?<string>) returns (ok: bool)
    requires features.Unshared()
    requires labels != null ==> labels !in features.Maps() && labels != vars
    requires vars != null ==> vars !in features.Maps()
    modifies features, MatchedMap(features), labels
    ensures features.Unshared()
    ensures features.attributes.Keys == old(features.attributes.Keys) + {MATCHED}
    ensures forall k :: k in old(features.attributes) && k != MATCHED ==>
      features.attributes[k] == old(features.attributes[k])
    ensures ok <==> (old(HasNil(features)) ==> old(NilMap(labels)) == map[] && old(NilMap(vars)) == map[])
    ensures old(HasNil(features)) ==> features.attributes == old(features.attributes)
    ensures !old(HasNil(features)) ==>
      && features.attributes[MATCHED] != null
      && (features.attributes[MATCHED] == labels || fresh(features.attributes[MATCHED])
        || features.attributes[MATCHED] in old(MatchedMap(features)))
      && features.attributes[MATCHED].m == old(Matched(features)) + old(NilMap(labels)) + old(NilMap(vars))
  {
    ghost var l, v, base := NilMap(labels), NilMap(vars), Matched(features);
    assert map[] + l == l && base + map[] == base && base + l + map[] == base + l;
    ok := features.InsertAttributeFeatures(MATCHED, labels);
    if !ok { return; }
    assert NilMap(features.attributes[MATCHED]) == base + l;
    ok := features.InsertAttributeFeatures(MATCHED, vars);
  }

  ghost predicate HasNil(features: FeatureStore)
    reads features
  {
    MATCHED in features.attributes && features.attributes[MATCHED] == null
  }

  ghost function Matched(features: FeatureStore): Attrs
    reads features, MatchedMap(features)
  {
    if MATCHED in features.attributes then NilMap(features.attributes[MATCHED]) else map[]
  }

  /** `a` is `b` but for the back-reference feature. */
  ghost predicate SameButMatched(a: Features, b: Features) {
    && a.flags == b.flags && a.instances == b.instances
    && a.attributes.Keys - {MATCHED} == b.attributes.Keys - {MATCHED}
    && forall k :: k in a.attributes && k != MATCHED && k in b.attributes ==> a.attributes[k] == b.attributes[k]
  }

  lemma SameWithMatched(a: Features, b: Features, matched: Option<Attrs>)
    requires SameButMatched(a, b)
    requires if matched.Some? then MATCHED in a.attributes && a.attributes[MATCHED] == matched
      else MATCHED !in a.attributes && MATCHED !in b.attributes
    ensures a == WithMatched(b, matched)
  {
    assert forall k :: k in a.attributes <==> k in WithMatched(b, matched).attributes by {
      assert forall k :: k in a.attributes && k != MATCHED <==> k in a.attributes.Keys - {MATCHED};
      assert forall k :: k in b.attributes && k != MATCHED <==> k in b.attributes.Keys - {MATCHED};
    }
  }

  /** The labels a rule publishes, with default namespaces when those are switched on. */
  ghost predicate PartOf(autoPrefix: bool, out: Output, part: Attrs) {
    match out
    case Failed => part == map[]
    case Done(l, _) => if autoPrefix then Namespacing.Namespaced(l, FEATURE_NS, part) else part == l
  }

  lemma BackrefNext(start: Option<Attrs>, outs: seq<Output>, out: Output)
    ensures Backref(start, outs + [out]) ==
      var before := Backref(start, outs);
      if out.Failed? then before else Some((if before.Some? then before.value else map[]) + out.labels + out.vars)
  {
    assert (outs + [out])[..|outs|] == outs;
  }

  lemma OutcomeGivesOutput(re: Regexps, matchers: Matchers, labels: Attrs, vars: Attrs, seen: Features, v: Verdict)
    requires RuleOutcome(re, matchers, seen, v)
    ensures OutputOf(re, matchers, labels, vars, seen,
      if v.Err? then Failed else if v.matched then Done(labels, vars) else Done(map[], map[]))
  {
  }

  /** `Execute` as the chain uses it: the maps it returns and what they stand for. */
  method ExecuteRule(re: Regexps, rule: RuleObject, features: FeatureStore)
    returns (failed: bool, labels: Elements?<string>, vars: Elements?<string>, ghost out: Output)
    ensures OutputOf(re, rule.matchers, rule.labels.m, rule.vars.m, features.Content(), out)
    ensures failed <==> out.Failed?
    ensures !failed ==> out == Done(NilMap(labels), NilMap(vars))
    ensures labels != null ==> fresh(labels) && labels != vars
    ensures vars != null ==> fresh(vars)
  {
    var v;
    v, labels, vars := Execute(re, rule, features, true);
    OutcomeGivesOutput(re, rule.matchers, rule.labels.m, rule.vars.m, features.Content(), v);
    failed := v.Err?;
    out := if v.Err? then Failed else Done(NilMap(labels), NilMap(vars));
  }

  /**
   One turn of the loop of `processNodeFeatureRule`: execute, publish the labels, feed back. It panics
   exactly when the back-reference feature has a nil map and the rule has something to put there.
   */
  method RunRule(re: Regexps, rule: RuleObject, features: FeatureStore, autoPrefix: bool)
    returns (ok: bool, part: Attrs, ghost out: Output)
    requires features.Unshared()
    modifies features, MatchedMap(features)
    ensures features.Unshared()
    ensures OutputOf(re, rule.matchers, old(rule.labels.m), old(rule.vars.m), old(features.Content()), out)
    ensures ok <==> !(NilMatched(old(features.Content())) && Loud(out))
    ensures PartOf(autoPrefix, out, part)
    ensures out.Failed? || !ok ==> features.Content() == old(features.Content())
    ensures out.Done? && ok ==> FedBack(old(features.Content()), features.Content(), out)
    ensures forall o :: o in MatchedMap(features) ==> o in old(MatchedMap(features)) || fresh(o)
  {
    ok, part := true, map[];
    var failed, labels, vars;
    failed, labels, vars, out := ExecuteRule(re, rule, features);
    if failed { return; }
    part := Publish(autoPrefix, NilMap(labels));
    ok := FeedbackContent(features, labels, vars);
  }

  method Publish(autoPrefix: bool, labels: Attrs) returns (part: Attrs)
    ensures forall vars :: PartOf(autoPrefix, Done(labels, vars), part)
  {
    part := labels;
    if autoPrefix {
      part := Namespacing.AddNsToMapKeys(labels, FEATURE_NS);
    }
  }

  /** The features after the output of a rule was fed back. */
  ghost predicate FedBack(before: Features, after: Features, out: Output)
    requires out.Done?
  {
    if NilMatched(before) then after == before
    else
      && SameButMatched(after, before)
      && MATCHED in after.attributes
      && after.attributes[MATCHED] ==
        Some((if MatchedOf(before).Some? then MatchedOf(before).value else map[]) + out.labels + out.vars)
  }

  method FeedbackContent(features: FeatureStore, labels: Elements?<string>, vars: Elements?<string>) returns (ok: bool)
    requires features.Unshared()
    requires labels != null ==> labels !in features.Maps() && labels != vars
    requires vars != null ==> vars !in features.Maps()
    modifies features, MatchedMap(features), labels
    ensures features.Unshared()
    ensures ok <==> !(NilMatched(old(features.Content())) && Loud(Done(old(NilMap(labels)), old(NilMap(vars)))))
    ensures FedBack(old(features.Content()), features.Content(), Done(old(NilMap(labels)), old(NilMap(vars))))
    ensures forall o :: o in MatchedMap(features) ==> o in old(MatchedMap(features)) || o == labels || fresh(o)
  {
    ok := Feedback(features, labels, vars);
  }

  lemma ChainStep(before: Features, after: Features, start: Features, outs: seq<Output>, out: Output)
    requires before == SeenAfter(start, outs)
    requires if out.Failed? then after == before else FedBack(before, after, out)
    ensures after == SeenAfter(start, outs + [out])
  {
    if !NilMatched(start) {
      BackrefNext(MatchedOf(start), outs, out);
      var matched := Backref(MatchedOf(start), outs);
      assert MatchedOf(before) == matched && !NilMatched(before) by {
        if MatchedOf(start).Some? { BackrefKeeps(MatchedOf(start), outs); }
      }
      if out.Done? {
        SameWithMatched(after, start, Backref(MatchedOf(start), outs + [out]));
      }
    }
  }

  lemma {:induction false} BackrefKeeps(start: Option<Attrs>, outs: seq<Output>)
    requires start.Some?
    ensures Backref(start, outs).Some?
  {
    if outs != [] {
      BackrefKeeps(start, outs[..|outs| - 1]);
    }
  }

  /** The content of a cached rule. */
  datatype RuleValue = RuleValue(matchers: Matchers, labels: Attrs, vars: Attrs)

  ghost function ValueOf(rule: RuleObject): RuleValue
    reads rule.labels, rule.vars
  {
    RuleValue(rule.matchers, rule.labels.m, rule.vars.m)
  }

  ghost function ValuesOf(rules: seq<RuleObject>): (vals: seq<RuleValue>)
    reads set i | 0 <= i < |rules| :: rules[i].labels
    reads set i | 0 <= i < |rules| :: rules[i].vars
    ensures |vals| == |rules| && forall i :: 0 <= i < |rules| ==> vals[i] == ValueOf(rules[i])
  {
    if rules == [] then [] else ValuesOf(rules[..|rules| - 1]) + [ValueOf(rules[|rules| - 1])]
  }

  /** The features that a rule sees after these outputs. A nil map stays nil. */
  function SeenAfter(start: Features, outs: seq<Output>): Features {
    if NilMatched(start) then start else WithMatched(start, Backref(MatchedOf(start), outs))
  }

  /** Each output is one that its rule may give on the features it sees. */
  ghost predicate Trace(re: Regexps, rules: seq<RuleValue>, start: Features, outs: seq<Output>) {
    && |outs| <= |rules|
    && forall i :: 0 <= i < |outs| ==>
      OutputOf(re, rules[i].matchers, rules[i].labels, rules[i].vars, SeenAfter(start, outs[..i]), outs[i])
  }

  lemma TraceNext(re: Regexps, rules: seq<RuleValue>, start: Features, outs: seq<Output>, out: Output)
    requires Trace(re, rules, start, outs) && |outs| < |rules|
    requires var r := rules[|outs|]; OutputOf(re, r.matchers, r.labels, r.vars, SeenAfter(start, outs), out)
    ensures Trace(re, rules, start, outs + [out])
  {
    forall i | 0 <= i < |outs| + 1
      ensures OutputOf(re, rules[i].matchers, rules[i].labels, rules[i].vars, SeenAfter(start, (outs + [out])[..i]),
        (outs + [out])[i])
    {
      if i == |outs| {
        assert (outs + [out])[..i] == outs;
      } else {
        assert (outs + [out])[..i] == outs[..i];
      }
    }
  }

  /** The maps of the cached rules are not the one that the chain writes to. */
  ghost predicate Apart(rules: seq<RuleObject>, features: FeatureStore)
    reads features
  {
    forall i :: 0 <= i < |rules| ==> rules[i].labels !in MatchedMap(features) && rules[i].vars !in MatchedMap(features)
  }

  /**
   The rule loop of `processNodeFeatureRule`. Rule i sees the given features with the back-reference
   feature overridden in turn by labels and then vars of the rules before it that did not fail;
   published labels are made of labels alone; no cached rule changes. The loop panics exactly at the
   first rule with something to feed back into a nil map.
   */
  method ProcessRules(re: Regexps, rules: seq<RuleObject>, features: FeatureStore, autoPrefix: bool)
    returns (ok: bool, labels: Attrs, ghost outs: seq<Output>, ghost parts: seq<Attrs>)
    requires features.Unshared() && Apart(rules, features)
    modifies features, MatchedMap(features)
    ensures |outs| == |parts| <= |rules| && Trace(re, old(ValuesOf(rules)), old(features.Content()), outs)
    ensures ok ==> |outs| == |rules| && features.Content() == SeenAfter(old(features.Content()), outs)
    ensures ok <==> Quiet(old(features.Content()), outs)
    ensures forall i :: 0 <= i < |outs| ==> PartOf(autoPrefix, outs[i], parts[i])
    ensures ok ==> labels == Overlaid(parts)
    ensures Hold(rules, old(ValuesOf(rules)))
  {
    ghost var start, vals := features.Content(), ValuesOf(rules);
    labels, outs, parts := map[], [], [];
    for i := 0 to |rules|
      invariant features.Unshared() && Apart(rules, features) && Hold(rules, vals)
      invariant forall o :: o in MatchedMap(features) ==> o in old(MatchedMap(features)) || fresh(o)
      invariant features.Content() == SeenAfter(start, outs)
      invariant |outs| == i && Progress(re, vals, start, autoPrefix, outs, parts, labels) && Quiet(start, outs)
    {
      var part;
      ghost var out;
      ok, part, out := Turn(re, rules, i, features, autoPrefix, vals, start, outs);
      ProgressNext(re, vals, start, autoPrefix, outs, parts, labels, out, part);
      QuietNext(start, outs, out);
      labels, outs, parts := labels + part, outs + [out], parts + [part];
      if !ok { return; }
    }
    ok := true;
  }

  ghost predicate Hold(rules: seq<RuleObject>, vals: seq<RuleValue>)
    reads set i | 0 <= i < |rules| :: rules[i].labels
    reads set i | 0 <= i < |rules| :: rules[i].vars
  {
    |vals| == |rules| && forall i :: 0 <= i < |rules| ==> ValueOf(rules[i]) == vals[i]
  }

  /** One turn, which leaves the cached rules as they are. */
  method Turn(re: Regexps, rules: seq<RuleObject>, i: nat, features: FeatureStore, autoPrefix: bool,
      ghost vals: seq<RuleValue>, ghost start: Features, ghost outs: seq<Output>)
    returns (ok: bool, part: Attrs, ghost out: Output)
    requires features.Unshared() && Apart(rules, features) && Hold(rules, vals)
    requires i < |rules| && features.Content() == SeenAfter(start, outs)
    modifies features, MatchedMap(features)
    ensures features.Unshared() && Apart(rules, features) && Hold(rules, vals)
    ensures forall o :: o in MatchedMap(features) ==> o in old(MatchedMap(features)) || fresh(o)
    ensures OutputOf(re, vals[i].matchers, vals[i].labels, vals[i].vars, SeenAfter(start, outs), out)
      && PartOf(autoPrefix, out, part)
    ensures ok <==> !(NilMatched(start) && Loud(out))
    ensures ok ==> features.Content() == SeenAfter(start, outs + [out])
  {
    ghost var before := features.Content();
    assert ValueOf(rules[i]) == vals[i];
    ok, part, out := RunRule(re, rules[i], features, autoPrefix);
    SeenNil(start, outs);
    if ok { ChainStep(before, features.Content(), start, outs, out); }
  }

  lemma SeenNil(start: Features, outs: seq<Output>)
    ensures NilMatched(SeenAfter(start, outs)) <==> NilMatched(start)
  {
    if MatchedOf(start).Some? { BackrefKeeps(MatchedOf(start), outs); }
  }

  /** What the loop has gathered fits the outputs of the rules so far. */
  ghost predicate Progress(re: Regexps, rules: seq<RuleValue>, start: Features, autoPrefix: bool, outs: seq<Output>,
    parts: seq<Attrs>, labels: Attrs)
  {
    && Trace(re, rules, start, outs) && labels == Overlaid(parts)
    && |parts| == |outs| && forall i :: 0 <= i < |outs| ==> PartOf(autoPrefix, outs[i], parts[i])
  }

  /** No output writes into a nil map. */
  ghost predicate Quiet(start: Features, outs: seq<Output>) {
    NilMatched(start) ==> forall i :: 0 <= i < |outs| ==> !Loud(outs[i])
  }

  /** A rule with something to feed back if it matches. */
  predicate Outspoken(r: RuleValue) {
    r.labels != map[] || r.vars != map[]
  }

  /**
   What a caller can check before the call: where the back-reference feature has a nil map and no rule
   errs on the features given, the loop goes through (`ok`, as `ProcessRules` ties it to the outputs) if
   and only if no rule that matches them has anything to feed back.
   */
  lemma NilMatchedExactly(re: Regexps, rules: seq<RuleValue>, start: Features, outs: seq<Output>, ok: bool)
    requires NilMatched(start) && forall i :: 0 <= i < |rules| ==> !RuleErr(re, rules[i].matchers, start)
    requires Trace(re, rules, start, outs) && (ok <==> Quiet(start, outs)) && (ok ==> |outs| == |rules|)
    ensures ok <==> forall i :: 0 <= i < |rules| && RuleMatch(re, rules[i].matchers, start) ==> !Outspoken(rules[i])
  {
    forall i | 0 <= i < |outs|
      ensures Loud(outs[i]) <==> RuleMatch(re, rules[i].matchers, start) && Outspoken(rules[i])
    {
      var r := rules[i];
      assert OutputOf(re, r.matchers, r.labels, r.vars, SeenAfter(start, outs[..i]), outs[i]);
    }
  }

  /** One rule that always matches, with one label, on a nil map: the loop panics. */
  lemma NilMatchedPanics(re: Regexps, start: Features, outs: seq<Output>)
    requires NilMatched(start)
    requires var rule := RuleValue(Matchers([], []), map["a" := "true"], map[]);
      Trace(re, [rule], start, outs) && |outs| == 1
    ensures !Quiet(start, outs)
  {
    var rule := RuleValue(Matchers([], []), map["a" := "true"], map[]);
    assert [rule][0] == rule && "a" in rule.labels;
    assert OutputOf(re, rule.matchers, rule.labels, rule.vars, SeenAfter(start, outs[..0]), outs[0]);
    assert Loud(outs[0]);
  }

  lemma QuietNext(start: Features, outs: seq<Output>, out: Output)
    requires Quiet(start, outs)
    ensures Quiet(start, outs + [out]) <==> !(NilMatched(start) && Loud(out))
  {
    assert (outs + [out])[|outs|] == out;
  }

  lemma ProgressNext(re: Regexps, rules: seq<RuleValue>, start: Features, autoPrefix: bool, outs: seq<Output>,
      parts: seq<Attrs>, labels: Attrs, out: Output, part: Attrs)
    requires Progress(re, rules, start, autoPrefix, outs, parts, labels) && |outs| < |rules|
    requires var r := rules[|outs|]; OutputOf(re, r.matchers, r.labels, r.vars, SeenAfter(start, outs), out)
    requires PartOf(autoPrefix, out, part)
    ensures Progress(re, rules, start, autoPrefix, outs + [out], parts + [part], labels + part)
  {
    TraceNext(re, rules, start, outs, out);
    OverlaidNext(parts, part);
  }
}
