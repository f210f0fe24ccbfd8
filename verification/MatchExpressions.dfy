/** Match expressions: pkg/apis/nfd/nodefeaturerule/expression.go. */
module MatchExpressions {
  import opened Strings
  import opened FeatureApi

  datatype Verdict = Ok(matched: bool) | Err

  /** `evaluateMatchExpression`; a value of None is Go's nil. */
  function Eval(re: Regexps, m: MatchExpression, valid: bool, input: Option<string>): Verdict {
    match m.op
    case Unknown(_) => Err
    case MatchAny => if m.value != [] then Err else Ok(true)
    case MatchExists => if m.value != [] then Err else Ok(valid)
    case MatchDoesNotExist => if m.value != [] then Err else Ok(!valid)
    case _ => if valid && input.Some? then EvalValue(re, m, input.value) else Ok(false)
  }

  function EvalValue(re: Regexps, m: MatchExpression, v: string): Verdict {
    match m.op
    case MatchIn => if m.value == [] then Err else Ok(v in m.value)
    case MatchNotIn => if m.value == [] then Err else Ok(v !in m.value)
    case MatchInRegexp =>
      if m.value == [] || (exists i :: 0 <= i < |m.value| && !re.compiles(m.value[i])) then Err
      else Ok(exists i :: 0 <= i < |m.value| && re.matches(m.value[i], v))
    case MatchGt => EvalCompare(m, v)
    case MatchLt => EvalCompare(m, v)
    case MatchGtLt =>
      if |m.value| != 2 then Err
      else
        var n, lo, hi := Atoi(v), Atoi(m.value[0]), Atoi(m.value[1]);
        if n.None? || lo.None? || hi.None? || lo.value >= hi.value then Err
        else Ok(lo.value < n.value < hi.value)
    case MatchIsTrue => if m.value != [] then Err else Ok(v == "true")
    case MatchIsFalse => if m.value != [] then Err else Ok(v == "false")
    case _ => Err
  }

  function EvalCompare(m: MatchExpression, v: string): Verdict {
    if |m.value| != 1 then Err
    else
      var l, r := Atoi(v), Atoi(m.value[0]);
      if l.None? || r.None? then Err
      else Ok((l.value < r.value && m.op == MatchLt) || (l.value > r.value && m.op == MatchGt))
  }

  /** `evaluateMatchExpressionKeys`. */
  function EvalKey(re: Regexps, e: MatchExpression, n: string, keys: set<string>): Verdict {
    Eval(re, e, n in keys, None)
  }

  /** `evaluateMatchExpressionValues`. */
  function EvalAttr(re: Regexps, e: MatchExpression, n: string, values: Attrs): Verdict {
    Eval(re, e, n in values, Some(if n in values then values[n] else ""))
  }

  // ---- One set of attributes ----

  ghost predicate ValuesMatch(re: Regexps, m: MatchExpressionSet, values: Attrs) {
    forall n :: n in m ==> EvalAttr(re, m[n], n, values) == Ok(true)
  }

  ghost predicate ValuesErr(re: Regexps, m: MatchExpressionSet, values: Attrs) {
    exists n :: n in m && EvalAttr(re, m[n], n, values) == Err
  }

  /**
   `MatchGetValues` (verdict): whatever order the expressions are taken in, and whether or not it
   stops at the first failure, a verdict is the conjunction.
   */
  method MatchGetValues(re: Regexps, m: MatchExpressionSet, values: Attrs, failFast: bool) returns (r: Verdict)
    ensures r.Ok? ==> (r.matched <==> ValuesMatch(re, m, values))
    ensures r.Err? ==> ValuesErr(re, m, values)
    ensures !failFast && ValuesErr(re, m, values) ==> r.Err?
  {
    var isMatch := true;
    var todo := m.Keys;
    while todo != {}
      invariant todo <= m.Keys
      invariant forall n :: n in m && n !in todo ==> EvalAttr(re, m[n], n, values).Ok?
      invariant isMatch <==> forall n :: n in m && n !in todo ==> EvalAttr(re, m[n], n, values) == Ok(true)
    {
      var n :| n in todo;
      todo := todo - {n};
      var match_ := EvalAttr(re, m[n], n, values);
      if match_.Err? { return Err; }
      if !match_.matched {
        if failFast { return Ok(false); }
        isMatch := false;
      }
    }
    return Ok(isMatch);
  }

  // ---- Instances ----

  ghost function Matches(re: Regexps, m: MatchExpressionSet): Attrs -> bool {
    values => ValuesMatch(re, m, values)
  }

  ghost function Fails(re: Regexps, m: MatchExpressionSet): Attrs -> bool {
    values => ValuesErr(re, m, values)
  }

  ghost predicate InstancesMatch(re: Regexps, m: MatchExpressionSet, instances: seq<Attrs>) {
    AnyOf(Matches(re, m), instances)
  }

  ghost predicate InstancesErr(re: Regexps, m: MatchExpressionSet, instances: seq<Attrs>) {
    AnyOf(Fails(re, m), instances)
  }

  /** The elements with the property, in order. */
  ghost function Those<T>(p: T -> bool, xs: seq<T>): seq<T> {
    if xs == [] then []
    else
      var k := |xs| - 1;
      Those(p, xs[..k]) + if p(xs[k]) then [xs[k]] else []
  }

  lemma ThoseNext<T>(p: T -> bool, xs: seq<T>, i: nat)
    requires i < |xs|
    ensures Those(p, xs[..i + 1]) == Those(p, xs[..i]) + if p(xs[i]) then [xs[i]] else []
  {
    assert xs[..i + 1][..i] == xs[..i];
  }

  lemma {:induction false} ThoseEmpty<T>(p: T -> bool, xs: seq<T>)
    ensures Those(p, xs) != [] <==> AnyOf(p, xs)
  {
    if xs != [] {
      var k := |xs| - 1;
      ThoseEmpty(p, xs[..k]);
      AnyOfNext(p, xs, k);
      assert xs[..k + 1] == xs;
    }
  }

  lemma {:induction false} ThoseElement<T>(p: T -> bool, xs: seq<T>, x: T)
    ensures x in Those(p, xs) <==> x in xs && p(x)
  {
    if xs != [] {
      var k := |xs| - 1;
      ThoseElement(p, xs[..k], x);
      assert xs == xs[..k] + [xs[k]];
    }
  }

  /** Lists one after the other keep their order. */
  lemma {:induction false} ThoseConcat<T>(p: T -> bool, xs: seq<T>, ys: seq<T>)
    ensures Those(p, xs + ys) == Those(p, xs) + Those(p, ys)
    decreases |ys|
  {
    if ys == [] {
      assert xs + ys == xs;
    } else {
      var k := |ys| - 1;
      assert (xs + ys)[..|xs + ys| - 1] == xs + ys[..k];
      ThoseConcat(p, xs, ys[..k]);
    }
  }

  /** The matching instances, in order. */
  ghost function Matching(re: Regexps, m: MatchExpressionSet, instances: seq<Attrs>): seq<Attrs> {
    Those(Matches(re, m), instances)
  }

  /** One instance: its verdict in terms of the two properties. */
  method MatchInstance(re: Regexps, m: MatchExpressionSet, values: Attrs, failFast: bool) returns (r: Verdict)
    ensures r.Ok? ==> r.matched == Matches(re, m)(values)
    ensures r.Err? ==> Fails(re, m)(values)
    ensures !failFast && Fails(re, m)(values) ==> r.Err?
  {
    r := MatchGetValues(re, m, values, failFast);
  }

  /** `MatchGetInstances`. */
  method MatchGetInstances(re: Regexps, m: MatchExpressionSet, instances: seq<Attrs>, failFast: bool)
    returns (r: Verdict, matchedElements: seq<Attrs>)
    ensures r.Ok? ==> (r.matched <==> InstancesMatch(re, m, instances))
    ensures r.Ok? ==> matchedElements == Matching(re, m, instances)
    ensures r.Err? ==> InstancesErr(re, m, instances)
    ensures !failFast && InstancesErr(re, m, instances) ==> r.Err?
  {
    matchedElements := [];
    for i := 0 to |instances|
      invariant matchedElements == Matching(re, m, instances[..i])
      invariant !failFast ==> !InstancesErr(re, m, instances[..i])
    {
      var v := MatchInstance(re, m, instances[i], failFast);
      AnyOfNext(Fails(re, m), instances, i);
      ThoseNext(Matches(re, m), instances, i);
      if v.Err? {
        AnyOfPrefix(Fails(re, m), instances, i + 1);
        return Err, [];
      }
      if v.matched {
        matchedElements := matchedElements + [instances[i]];
      }
    }
    assert instances[..|instances|] == instances;
    ThoseEmpty(Matches(re, m), instances);
    r := Ok(matchedElements != []);
  }

  // ---- Several feature types at once ----

  /** One expression on flags and attributes together; DoesNotExist has to hold on both. */
  function UnionEval(re: Regexps, e: MatchExpression, n: string, keys: Option<set<string>>,
      values: Option<Attrs>): Verdict
  {
    var k := if keys.Some? then EvalKey(re, e, n, keys.value) else Ok(false);
    if k.Err? then Err
    else if keys.Some? && !k.matched && e.op == MatchDoesNotExist then Ok(false)
    else
      var v := if values.Some? then EvalAttr(re, e, n, values.value) else Ok(false);
      if v.Err? then Err
      else if values.Some? && !v.matched && e.op == MatchDoesNotExist then Ok(false)
      else Ok(k.matched || v.matched)
  }

  ghost predicate UnionMatch(re: Regexps, m: MatchExpressionSet, keys: Option<set<string>>, values: Option<Attrs>) {
    (keys.Some? || values.Some?) && forall n :: n in m ==> UnionEval(re, m[n], n, keys, values) == Ok(true)
  }

  ghost predicate UnionErr(re: Regexps, m: MatchExpressionSet, keys: Option<set<string>>, values: Option<Attrs>) {
    exists n :: n in m && UnionEval(re, m[n], n, keys, values) == Err
  }

  ghost predicate MultiMatch(re: Regexps, m: MatchExpressionSet, keys: Option<set<string>>, values: Option<Attrs>,
      instances: seq<Attrs>)
  {
    UnionMatch(re, m, keys, values) || InstancesMatch(re, m, instances)
  }

  ghost predicate MultiErr(re: Regexps, m: MatchExpressionSet, keys: Option<set<string>>, values: Option<Attrs>,
      instances: seq<Attrs>)
  {
    UnionErr(re, m, keys, values) || InstancesErr(re, m, instances)
  }

  /** The loop of `MatchMulti` over the expressions, on flags and attributes. */
  method MatchUnion(re: Regexps, m: MatchExpressionSet, keys: Option<set<string>>, values: Option<Attrs>,
      failFast: bool)
    returns (r: Verdict)
    ensures r.Ok? ==> (r.matched <==> UnionMatch(re, m, keys, values))
    ensures r.Err? ==> UnionErr(re, m, keys, values)
    ensures !failFast && UnionErr(re, m, keys, values) ==> r.Err?
  {
    var isMatch := keys.Some? || values.Some?;
    ghost var present := isMatch;
    var todo := m.Keys;
    while todo != {}
      invariant todo <= m.Keys
      invariant forall n :: n in m && n !in todo ==> UnionEval(re, m[n], n, keys, values).Ok?
      invariant isMatch <==> present && forall n :: n in m && n !in todo ==>
        UnionEval(re, m[n], n, keys, values) == Ok(true)
      decreases todo
    {
      var n :| n in todo;
      todo := todo - {n};
      var e := m[n];
      var matchK, matchV := false, false;
      if keys.Some? {
        var k := EvalKey(re, e, n, keys.value);
        if k.Err? { return Err; }
        matchK := k.matched;
        if !matchK && e.op == MatchDoesNotExist {
          isMatch := false;
          if !failFast { continue; }
          break;
        }
      }
      if values.Some? {
        var v := EvalAttr(re, e, n, values.value);
        if v.Err? { return Err; }
        matchV := v.matched;
        if !matchV && e.op == MatchDoesNotExist {
          isMatch := false;
          if !failFast { continue; }
          break;
        }
      }
      if !matchK && !matchV {
        isMatch := false;
        if !failFast { continue; }
        break;
      }
    }
    return Ok(isMatch);
  }

  /** `MatchMulti`: flags and attributes as a union, or one instance that satisfies everything. */
  method MatchMulti(re: Regexps, m: MatchExpressionSet, keys: Option<set<string>>, values: Option<Attrs>,
      instances: seq<Attrs>, failFast: bool)
    returns (r: Verdict)
    ensures r.Ok? ==> (r.matched <==> MultiMatch(re, m, keys, values, instances))
    ensures r.Err? ==> MultiErr(re, m, keys, values, instances)
    ensures !failFast && MultiErr(re, m, keys, values, instances) ==> r.Err?
  {
    var u := MatchUnion(re, m, keys, values, failFast);
    if u.Err? { return Err; }
    var ma, melems := MatchGetInstances(re, m, instances, failFast);
    if ma.Err? { return Err; }
    return Ok(u.matched || ma.matched);
  }

  // ---- Names ----

  function EvalName(re: Regexps, e: MatchExpression, n: string): Verdict {
    Eval(re, e, true, Some(n))
  }

  ghost predicate SomeName(re: Regexps, e: MatchExpression, names: set<string>) {
    exists n :: n in names && EvalName(re, e, n) == Ok(true)
  }

  ghost predicate NamesErr(re: Regexps, e: MatchExpression, names: set<string>) {
    exists n :: n in names && EvalName(re, e, n) == Err
  }

  /** `MatchKeyNames` and `MatchValueNames` (verdict): no early stop, so an error is always found. */
  method MatchNames(re: Regexps, e: MatchExpression, names: set<string>) returns (r: Verdict)
    ensures r.Err? <==> NamesErr(re, e, names)
    ensures r.Ok? ==> (r.matched <==> SomeName(re, e, names))
  {
    var found := false;
    var todo := names;
    while todo != {}
      invariant todo <= names
      invariant forall n :: n in names - todo ==> EvalName(re, e, n).Ok?
      invariant found <==> exists n :: n in names - todo && EvalName(re, e, n) == Ok(true)
    {
      var n :| n in todo;
      todo := todo - {n};
      var v := EvalName(re, e, n);
      if v.Err? { return Err; }
      if v.matched { found := true; }
    }
    return Ok(found);
  }

  function NilSet(keys: Option<set<string>>): set<string> {
    if keys.Some? then keys.value else {}
  }

  function NilKeys(values: Option<Attrs>): set<string> {
    if values.Some? then values.value.Keys else {}
  }

  ghost function Named(re: Regexps, e: MatchExpression): Attrs -> bool {
    (values: Attrs) => SomeName(re, e, values.Keys)
  }

  ghost function Misnamed(re: Regexps, e: MatchExpression): Attrs -> bool {
    (values: Attrs) => NamesErr(re, e, values.Keys)
  }

  ghost predicate SomeInstanceName(re: Regexps, e: MatchExpression, instances: seq<Attrs>) {
    AnyOf(Named(re, e), instances)
  }

  ghost predicate InstanceNamesErr(re: Regexps, e: MatchExpression, instances: seq<Attrs>) {
    AnyOf(Misnamed(re, e), instances)
  }

  /** `MatchValueNames` (verdict), in terms of the two properties. */
  method MatchValueNames(re: Regexps, e: MatchExpression, values: Attrs) returns (r: Verdict)
    ensures r.Err? <==> Misnamed(re, e)(values)
    ensures r.Ok? ==> r.matched == Named(re, e)(values)
  {
    r := MatchNames(re, e, values.Keys);
  }

  /** `MatchInstanceAttributeNames` (verdict). */
  method MatchInstanceNames(re: Regexps, e: MatchExpression, instances: seq<Attrs>) returns (r: Verdict)
    ensures r.Err? <==> InstanceNamesErr(re, e, instances)
    ensures r.Ok? ==> (r.matched <==> SomeInstanceName(re, e, instances))
  {
    var found := false;
    for i := 0 to |instances|
      invariant !InstanceNamesErr(re, e, instances[..i])
      invariant found <==> SomeInstanceName(re, e, instances[..i])
    {
      AnyOfNext(Named(re, e), instances, i);
      AnyOfNext(Misnamed(re, e), instances, i);
      var a := MatchValueNames(re, e, instances[i]);
      if a.Err? {
        AnyOfPrefix(Misnamed(re, e), instances, i + 1);
        return Err;
      }
      if a.matched { found := true; }
    }
    assert instances[..|instances|] == instances;
    return Ok(found);
  }

  ghost predicate NamesMultiMatch(re: Regexps, e: MatchExpression, keys: Option<set<string>>, values: Option<Attrs>,
      instances: seq<Attrs>)
  {
    SomeName(re, e, NilSet(keys)) || SomeName(re, e, NilKeys(values)) || SomeInstanceName(re, e, instances)
  }

  ghost predicate NamesMultiErr(re: Regexps, e: MatchExpression, keys: Option<set<string>>, values: Option<Attrs>,
      instances: seq<Attrs>)
  {
    NamesErr(re, e, NilSet(keys)) || NamesErr(re, e, NilKeys(values)) || InstanceNamesErr(re, e, instances)
  }

  /** `MatchNamesMulti` (verdict). */
  method MatchNamesMulti(re: Regexps, e: MatchExpression, keys: Option<set<string>>, values: Option<Attrs>,
      instances: seq<Attrs>)
    returns (r: Verdict)
    ensures r.Err? <==> NamesMultiErr(re, e, keys, values, instances)
    ensures r.Ok? ==> (r.matched <==> NamesMultiMatch(re, e, keys, values, instances))
  {
    var k := MatchNames(re, e, NilSet(keys));
    if k.Err? { return Err; }
    var v := MatchNames(re, e, NilKeys(values));
    if v.Err? { return Err; }
    var i := MatchInstanceNames(re, e, instances);
    if i.Err? { return Err; }
    return Ok(k.matched || v.matched || i.matched);
  }
}
