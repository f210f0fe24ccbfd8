/**
 What a feature gate answers after any calls (pkg/utils/featuregate/featuregate.go): the last setting that
 was accepted, or else the last default that was accepted, or else the default it was given.
 */
module GateAnswers {
  import opened Strings
  import opened FeatureGate

  // ---- What a text says ----

  /** The text has a pair that is no setting. */
  ghost predicate SomeBad(pairs: seq<Pair>) {
    exists i :: 0 <= i < |pairs| && pairs[i].Bad?
  }

  /** Pair `i` is the last setting of the key, -1 if there is none. */
  ghost predicate LastPair(pairs: seq<Pair>, key: string, i: int) {
    && -1 <= i < |pairs| && (i >= 0 ==> pairs[i].Setting? && pairs[i].key == key)
    && forall j :: i < j < |pairs| && pairs[j].Setting? ==> pairs[j].key != key
  }

  /** A list with a malformed pair is refused as a whole; otherwise the last setting of a key counts. */
  lemma {:induction false} CollectLast(pairs: seq<Pair>, key: string, i: int)
    requires LastPair(pairs, key, i)
    ensures Collect(pairs).None? <==> SomeBad(pairs)
    ensures Collect(pairs).Some? ==> (key in Collect(pairs).value <==> i >= 0)
    ensures Collect(pairs).Some? && i >= 0 ==> Collect(pairs).value[key] == pairs[i].value
  {
    if pairs != [] {
      var k := |pairs| - 1;
      var init := pairs[..k];
      assert forall j :: 0 <= j < k ==> init[j] == pairs[j];
      if i == k {
        var before := LastOf(init, key);
        CollectLast(init, key, before);
      } else {
        CollectLast(init, key, i);
      }
      assert SomeBad(pairs) <==> SomeBad(init) || pairs[k].Bad?;
    }
  }

  lemma {:induction false} LastOf(pairs: seq<Pair>, key: string) returns (i: int)
    ensures LastPair(pairs, key, i)
  {
    if pairs == [] {
      i := -1;
    } else {
      var k := |pairs| - 1;
      assert forall j :: 0 <= j < k ==> pairs[..k][j] == pairs[j];
      if pairs[k].Setting? && pairs[k].key == key {
        i := k;
      } else {
        i := LastOf(pairs[..k], key);
      }
    }
  }

  // ---- What the calls come to ----

  /**
   What a call sets the feature to: the text parses and names it, and every setting in the text is of a
   known feature and respects locks.
   */
  ghost function SetBy(features: Known, c: Call, key: string): Option<bool> {
    if !c.Set? then None
    else
      var m := ParseParts(Split(c.text, ','));
      if m.Some? && key in m.value && AllAcceptable(features, m.value) then Some(m.value[key]) else None
  }

  ghost predicate Sets(features: Known, calls: seq<Call>, i: int, key: string) {
    0 <= i < |calls| && SetBy(features, calls[i], key).Some?
  }

  /** Call `i` gives the feature another default: it is known and not locked, and the gate was still open. */
  ghost predicate Overrides(features: Known, calls: seq<Call>, i: int, key: string) {
    && 0 <= i < |calls| && calls[i].OverrideDefault? && calls[i].name == key
    && key in features && !features[key].lockToDefault
    && forall j :: 0 <= j < i ==> !calls[j].AddFlag?
  }

  ghost predicate LastSet(features: Known, calls: seq<Call>, key: string, i: int) {
    -1 <= i < |calls| && (i >= 0 ==> Sets(features, calls, i, key)) &&
    forall j :: i < j < |calls| ==> !Sets(features, calls, j, key)
  }

  ghost predicate LastOverride(features: Known, calls: seq<Call>, key: string, i: int) {
    -1 <= i < |calls| && (i >= 0 ==> Overrides(features, calls, i, key)) &&
    forall j :: i < j < |calls| ==> !Overrides(features, calls, j, key)
  }

  lemma {:induction false} RunNext(s: State, calls: seq<Call>, c: Call)
    ensures Run(s, calls + [c]) == Apply1(Run(s, calls), c)
    decreases |calls|
  {
    if calls == [] {
      assert calls + [c] == [c] && [c][1..] == [];
    } else {
      assert (calls + [c])[0] == calls[0] && (calls + [c])[1..] == calls[1..] + [c];
      RunNext(Apply1(s, calls[0]), calls[1..], c);
    }
  }

  lemma {:induction false} ClosedByFlag(features: Known, calls: seq<Call>)
    ensures Run(Fresh(features), calls).closed <==> exists j :: 0 <= j < |calls| && calls[j].AddFlag?
  {
    if calls != [] {
      var k := |calls| - 1;
      ClosedByFlag(features, calls[..k]);
      assert calls == calls[..k] + [calls[k]];
      RunNext(Fresh(features), calls[..k], calls[k]);
      assert forall j :: 0 <= j < k ==> calls[..k][j] == calls[j];
    }
  }

  /** Locks do not change, so neither does what is acceptable. */
  lemma SameAcceptable(features: Known, s: State, m: Settings)
    requires Inv(features, s)
    ensures AllAcceptable(s.known, m) <==> AllAcceptable(features, m)
  {
    assert forall k :: k in m ==> (Acceptable(s.known, k, m[k]) <==> Acceptable(features, k, m[k]));
  }

  lemma EnabledAfter(features: Known, s: State, c: Call, key: string)
    requires Inv(features, s)
    ensures var next := Apply1(s, c);
      if SetBy(features, c, key).Some? then
        key in next.enabled && Some(next.enabled[key]) == SetBy(features, c, key)
      else (key in next.enabled <==> key in s.enabled) && (key in s.enabled ==> next.enabled[key] == s.enabled[key])
  {
    if c.Set? && ParseParts(Split(c.text, ',')).Some? {
      SameAcceptable(features, s, ParseParts(Split(c.text, ',')).value);
    }
  }

  lemma KnownAfter(s: State, c: Call, key: string)
    requires key in s.known
    ensures var next := Apply1(s, c);
      key in next.known && next.known[key].default_ ==
        if c.OverrideDefault? && c.name == key && !s.closed && !s.known[key].lockToDefault then c.value
        else s.known[key].default_
  {
  }

  lemma LastCall(features: Known, calls: seq<Call>, k: nat)
    requires |calls| == k + 1
    ensures Run(Fresh(features), calls) == Apply1(Run(Fresh(features), calls[..k]), calls[k])
    ensures Inv(features, Run(Fresh(features), calls[..k]))
  {
    assert calls == calls[..k] + [calls[k]];
    RunNext(Fresh(features), calls[..k], calls[k]);
    RunInv(features, Fresh(features), calls[..k]);
  }

  lemma SetsStep(features: Known, calls: seq<Call>, key: string, k: nat)
    requires |calls| == k + 1
    ensures var s, next := Run(Fresh(features), calls[..k]), Run(Fresh(features), calls);
      if Sets(features, calls, k, key) then
        key in next.enabled && Some(next.enabled[key]) == SetBy(features, calls[k], key)
      else (key in next.enabled <==> key in s.enabled) && (key in s.enabled ==> next.enabled[key] == s.enabled[key])
  {
    LastCall(features, calls, k);
    EnabledAfter(features, Run(Fresh(features), calls[..k]), calls[k], key);
  }

  /** Whether the gate was still open at the last call. */
  lemma OpenAt(features: Known, calls: seq<Call>, k: nat)
    requires |calls| == k + 1
    ensures !Run(Fresh(features), calls[..k]).closed <==> forall j :: 0 <= j < k ==> !calls[j].AddFlag?
  {
    ClosedByFlag(features, calls[..k]);
    assert forall j :: 0 <= j < k ==> calls[..k][j] == calls[j];
  }

  lemma OverridesStep(features: Known, calls: seq<Call>, key: string, k: nat)
    requires |calls| == k + 1 && key in features
    ensures var s, next := Run(Fresh(features), calls[..k]), Run(Fresh(features), calls);
      && key in s.known && key in next.known
      && next.known[key].default_ ==
        if Overrides(features, calls, k, key) then calls[k].value else s.known[key].default_
  {
    LastCall(features, calls, k);
    OpenAt(features, calls, k);
    KnownAfter(Run(Fresh(features), calls[..k]), calls[k], key);
  }

  lemma SetsEarlier(features: Known, calls: seq<Call>, key: string, i: int)
    requires calls != [] && LastSet(features, calls, key, i) && i < |calls| - 1
    ensures LastSet(features, calls[..|calls| - 1], key, i)
  {
    var k := |calls| - 1;
    forall j | 0 <= j < k ensures Sets(features, calls[..k], j, key) <==> Sets(features, calls, j, key) {
      assert calls[..k][j] == calls[j];
    }
  }

  /** A feature is set exactly if some call set it, to what the last of them said. */
  ghost predicate SetTo(features: Known, calls: seq<Call>, key: string, i: int, enabled: Settings) {
    (key in enabled <==> i >= 0) && (0 <= i < |calls| ==> Some(enabled[key]) == SetBy(features, calls[i], key))
  }

  lemma {:induction false} SettingIsLast(features: Known, calls: seq<Call>, key: string, i: int)
    requires LastSet(features, calls, key, i)
    ensures SetTo(features, calls, key, i, Run(Fresh(features), calls).enabled)
  {
    if calls == [] {
      assert Run(Fresh(features), calls).enabled == map[];
    } else {
      SetsStep(features, calls, key, |calls| - 1);
      if i < |calls| - 1 {
        SetsEarlier(features, calls, key, i);
        SettingIsLast(features, calls[..|calls| - 1], key, i);
        assert !Sets(features, calls, |calls| - 1, key);
      } else {
        assert Sets(features, calls, |calls| - 1, key);
      }
    }
  }

  lemma OverridesEarlier(features: Known, calls: seq<Call>, key: string, i: int)
    requires calls != [] && LastOverride(features, calls, key, i) && i < |calls| - 1
    ensures LastOverride(features, calls[..|calls| - 1], key, i)
  {
    var k := |calls| - 1;
    forall j | 0 <= j < k ensures Overrides(features, calls[..k], j, key) <==> Overrides(features, calls, j, key) {
      assert forall m :: 0 <= m < k ==> calls[..k][m] == calls[m];
    }
  }

  /** The default of a feature is what the last accepted override made it. */
  ghost predicate DefaultsTo(features: Known, calls: seq<Call>, key: string, i: int, known: Known)
    requires key in features
  {
    key in known && known[key].default_ ==
      if 0 <= i < |calls| && calls[i].OverrideDefault? then calls[i].value else features[key].default_
  }

  lemma {:induction false} DefaultIsLast(features: Known, calls: seq<Call>, key: string, i: int)
    requires LastOverride(features, calls, key, i) && key in features
    ensures DefaultsTo(features, calls, key, i, Run(Fresh(features), calls).known)
  {
    if calls == [] {
      assert Run(Fresh(features), calls).known == features;
    } else {
      OverridesStep(features, calls, key, |calls| - 1);
      if i < |calls| - 1 {
        OverridesEarlier(features, calls, key, i);
        DefaultIsLast(features, calls[..|calls| - 1], key, i);
        assert !Overrides(features, calls, |calls| - 1, key);
      } else {
        assert Overrides(features, calls, |calls| - 1, key);
      }
    }
  }

  /**
   After any calls a known feature answers with its last accepted setting; without one, with its last
   accepted override; without one, with the default it was given.
   */
  lemma AnswerIsLast(features: Known, calls: seq<Call>, key: string, i: int, o: int)
    requires key in features && LastSet(features, calls, key, i) && LastOverride(features, calls, key, o)
    ensures Enabled(Run(Fresh(features), calls), key) ==
      if i >= 0 then SetBy(features, calls[i], key)
      else if o >= 0 then Some(calls[o].value)
      else Some(features[key].default_)
  {
    SettingIsLast(features, calls, key, i);
    DefaultIsLast(features, calls, key, o);
  }
}
