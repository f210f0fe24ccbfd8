/** Feature gates: pkg/utils/featuregate/featuregate.go, from the first `Add` on. */
module FeatureGate {
  import opened Strings
  import opened Sorting
  import opened Tracking

  /** Alpha, beta, GA and deprecated features differ only in what is logged. */
  datatype FeatureSpec = FeatureSpec(default_: bool, lockToDefault: bool, preRelease: string)

  type Known = map<string, FeatureSpec>

  type Settings = map<string, bool>

  datatype State = State(known: Known, enabled: Settings, closed: bool)

  datatype Outcome = Outcome(ok: bool, state: State)

  // ---- Parsing ----

  /** `strconv.ParseBool`. */
  function ParseBool(s: string): Option<bool> {
    if s in ["1", "t", "T", "TRUE", "true", "True"] then Some(true)
    else if s in ["0", "f", "F", "FALSE", "false", "False"] then Some(false)
    else None
  }

  datatype Pair = Empty | Bad | Setting(key: string, value: bool)

  function FromCut(arr: seq<string>): Pair {
    if |arr| != 2 then Bad
    else
      var v := ParseBool(TrimSpace(arr[1]));
      if v.None? then Bad else Setting(TrimSpace(arr[0]), v.value)
  }

  function ParsePair(s: string): Pair {
    if s == "" then Empty else FromCut(Cut(s, '='))
  }

  /** The settings of a list of pairs; later ones win. */
  function Collect(pairs: seq<Pair>): Option<Settings> {
    if pairs == [] then Some(map[])
    else
      var k := |pairs| - 1;
      var before := Collect(pairs[..k]);
      if before.None? then None
      else match pairs[k]
        case Empty => before
        case Bad => None
        case Setting(key, value) => Some(before.value[key := value])
  }

  function ParseParts(parts: seq<string>): Option<Settings> {
    Collect(Apply(ParsePair, parts))
  }

  // ---- The calls ----

  predicate Acceptable(known: Known, k: string, v: bool) {
    k in known && !(known[k].lockToDefault && known[k].default_ != v)
  }

  ghost predicate AllAcceptable(known: Known, m: Settings) {
    forall k :: k in m ==> Acceptable(known, k, m[k])
  }

  ghost function SetMap(s: State, m: Settings): Outcome {
    if AllAcceptable(s.known, m) then Outcome(true, s.(enabled := s.enabled + m)) else Outcome(false, s)
  }

  ghost function SetText(s: State, value: string): Outcome {
    var m := ParseParts(Split(value, ','));
    if m.None? then Outcome(false, s) else SetMap(s, m.value)
  }

  function Override(s: State, name: string, value: bool): Outcome {
    if s.closed || name !in s.known || s.known[name].lockToDefault then Outcome(false, s)
    else Outcome(true, s.(known := s.known[name := s.known[name].(default_ := value)]))
  }

  /** What the gate answers; None where it panics on an unknown feature. */
  function Enabled(s: State, key: string): Option<bool> {
    if key in s.enabled then Some(s.enabled[key])
    else if key in s.known then Some(s.known[key].default_)
    else None
  }

  function BoolText(b: bool): string {
    if b then "true" else "false"
  }

  function PairText(key: string, value: bool): string {
    key + ['='] + BoolText(value)
  }

  function PairOf(enabled: Settings): string -> string {
    key => if key in enabled then PairText(key, enabled[key]) else ""
  }

  /** The text of `String`. */
  ghost function Printed(enabled: Settings): string {
    Join(SortStrings(Apply(PairOf(enabled), SeqOf(enabled.Keys))), ',')
  }

  class Gate {
    var known: Known
    var enabled: Settings
    var closed: bool

    /** `NewFeatureGate` followed by `Add`. */
    constructor (features: Known)
      ensures Value() == Fresh(features)
    {
      known, enabled, closed := features, map[], false;
    }

    function Value(): State
      reads this
    {
      State(known, enabled, closed)
    }

    /** `SetFromMap`: checks on copies, so a rejected map changes nothing. */
    method SetFromMap(m: Settings) returns (ok: bool)
      modifies this
      ensures Outcome(ok, Value()) == SetMap(old(Value()), m)
    {
      var copy := enabled;
      var todo := m.Keys;
      while todo != {}
        invariant todo <= m.Keys
        invariant forall k :: k in m && k !in todo ==> Acceptable(known, k, m[k])
        invariant copy.Keys == enabled.Keys + (m.Keys - todo)
        invariant forall k :: k in copy ==> copy[k] == if k in m && k !in todo then m[k] else enabled[k]
        invariant Value() == old(Value())
      {
        var k :| k in todo;
        todo := todo - {k};
        if k !in known { return false; }
        if known[k].lockToDefault && known[k].default_ != m[k] { return false; }
        copy := copy[k := m[k]];
      }
      assert copy == enabled + m;
      enabled := copy;
      return true;
    }

    /** `Set`. */
    method Set(value: string) returns (ok: bool)
      modifies this
      ensures Outcome(ok, Value()) == SetText(old(Value()), value)
    {
      var m := ParseSettings(Split(value, ','));
      if m.None? { return false; }
      ok := SetFromMap(m.value);
    }

    /** `OverrideDefault`. */
    method OverrideDefault(name: string, override: bool) returns (ok: bool)
      modifies this
      ensures Outcome(ok, Value()) == Override(old(Value()), name, override)
    {
      if closed || name !in known || known[name].lockToDefault { return false; }
      known := known[name := known[name].(default_ := override)];
      return true;
    }

    /** `AddFlag` closes the gate. */
    method AddFlag()
      modifies this
      ensures Value() == old(Value()).(closed := true)
    {
      closed := true;
    }

    /** `String`. */
    method String() returns (text: string)
      ensures text == Printed(enabled)
    {
      var pairs, keys := PairsOf(enabled);
      ApplyPermutation(PairOf(enabled), keys, SeqOf(enabled.Keys));
      SortStringsCanonical(pairs, Apply(PairOf(enabled), SeqOf(enabled.Keys)));
      text := Join(SortStrings(pairs), ',');
    }
  }

  /** The printed pairs, in whatever order the map yields them. */
  method PairsOf(enabled: Settings) returns (pairs: seq<string>, ghost keys: seq<string>)
    ensures multiset(keys) == multiset(enabled.Keys)
    ensures pairs == Apply(PairOf(enabled), keys)
  {
    pairs, keys := [], [];
    var todo := enabled.Keys;
    while todo != {}
      invariant todo <= enabled.Keys
      invariant multiset(keys) == multiset(enabled.Keys - todo)
      invariant pairs == Apply(PairOf(enabled), keys)
    {
      var k :| k in todo;
      MoveOne(enabled.Keys, todo, keys, k);
      todo := todo - {k};
      pairs := pairs + [PairText(k, enabled[k])];
      keys := keys + [k];
    }
    assert enabled.Keys - todo == enabled.Keys;
  }

  lemma CollectNext(pairs: seq<Pair>, i: nat)
    requires i < |pairs|
    ensures Collect(pairs[..i + 1]) ==
      var before := Collect(pairs[..i]);
      if before.None? || pairs[i].Bad? then None
      else if pairs[i].Empty? then before
      else Some(before.value[pairs[i].key := pairs[i].value])
  {
    assert pairs[..i + 1][..i] == pairs[..i];
  }

  /** The loop of `Set` over the parts of the text; None is the first error. */
  method ParseSettings(parts: seq<string>) returns (r: Option<Settings>)
    ensures r == ParseParts(parts)
  {
    ghost var pairs := Apply(ParsePair, parts);
    var m: Settings := map[];
    for i := 0 to |parts|
      invariant Collect(pairs[..i]) == Some(m)
    {
      var pair := ParsePair(parts[i]);
      assert pair == pairs[i];
      CollectNext(pairs, i);
      if pair.Bad? {
        BadStays(pairs, i + 1);
        return None;
      }
      if pair.Setting? { m := m[pair.key := pair.value]; }
    }
    assert pairs[..|parts|] == pairs;
    return Some(m);
  }

  lemma {:induction false} BadStays(pairs: seq<Pair>, i: nat)
    requires i <= |pairs| && Collect(pairs[..i]).None?
    ensures Collect(pairs).None?
    decreases |pairs|
  {
    if i == |pairs| {
      assert pairs[..i] == pairs;
    } else {
      assert pairs[..|pairs| - 1][..i] == pairs[..i];
      BadStays(pairs[..|pairs| - 1], i);
    }
  }

  // ---- Runs ----

  function Fresh(features: Known): State {
    State(features, map[], false)
  }

  datatype Call = Set(text: string) | OverrideDefault(name: string, value: bool) | AddFlag

  ghost function Apply1(s: State, c: Call): State {
    match c
    case Set(text) => SetText(s, text).state
    case OverrideDefault(name, value) => Override(s, name, value).state
    case AddFlag => s.(closed := true)
  }

  ghost function Run(s: State, calls: seq<Call>): State
    decreases |calls|
  {
    if calls == [] then s else Run(Apply1(s, calls[0]), calls[1..])
  }

  /** Known features stay known, locked ones keep their spec, and enabled ones are known and respect locks. */
  ghost predicate Inv(features: Known, s: State) {
    && s.known.Keys == features.Keys
    && s.enabled.Keys <= s.known.Keys
    && (forall k :: k in features ==> s.known[k].lockToDefault == features[k].lockToDefault)
    && (forall k :: k in features && features[k].lockToDefault ==> s.known[k] == features[k])
    && (forall k :: k in s.enabled && features[k].lockToDefault ==> s.enabled[k] == features[k].default_)
    && (forall k :: k in s.enabled ==> CleanName(k))
  }

  /** A name that can be written in a gate string. */
  predicate CleanName(k: string) {
    ',' !in k && '=' !in k && Trimmed(k)
  }

  lemma TrimmedPart(s: string)
    ensures Trimmed(TrimSpace(s))
    ensures forall c :: c in TrimSpace(s) ==> c in s
  {
    var left := TrimLeft(s);
    assert forall c :: c in left ==> c in s;
  }

  lemma PairClean(s: string)
    requires ',' !in s && ParsePair(s).Setting?
    ensures CleanName(ParsePair(s).key)
  {
    var arr := Cut(s, '=');
    FromCutKey(arr);
    HeadClean(arr[0]);
  }

  lemma FromCutKey(arr: seq<string>)
    requires FromCut(arr).Setting?
    ensures |arr| == 2 && FromCut(arr).key == TrimSpace(arr[0])
  {
  }

  lemma HeadClean(head: string)
    requires ',' !in head && '=' !in head
    ensures CleanName(TrimSpace(head))
  {
    TrimmedPart(head);
  }

  lemma {:induction false} CollectedFrom(pairs: seq<Pair>, k: string)
    requires Collect(pairs).Some? && k in Collect(pairs).value
    ensures exists i :: 0 <= i < |pairs| && pairs[i] == Setting(k, Collect(pairs).value[k])
  {
    var n := |pairs| - 1;
    if pairs[n].Setting? && pairs[n].key == k {
      assert pairs[n] == Setting(k, Collect(pairs).value[k]);
    } else {
      CollectedFrom(pairs[..n], k);
      var i :| 0 <= i < n && pairs[..n][i] == Setting(k, Collect(pairs[..n]).value[k]);
      assert pairs[i] == Setting(k, Collect(pairs).value[k]);
    }
  }

  /** Whatever text is parsed, the names it sets can be written back. */
  lemma ParsedClean(parts: seq<string>)
    requires FreeOf(parts, ',') && ParseParts(parts).Some?
    ensures forall k :: k in ParseParts(parts).value ==> CleanName(k)
  {
    var pairs := Apply(ParsePair, parts);
    forall k | k in ParseParts(parts).value ensures CleanName(k) {
      CollectedFrom(pairs, k);
      var i :| 0 <= i < |pairs| && pairs[i] == Setting(k, Collect(pairs).value[k]);
      PairClean(parts[i]);
    }
  }

  lemma SetInv(features: Known, s: State, text: string)
    requires Inv(features, s)
    ensures Inv(features, SetText(s, text).state)
  {
    var parts := Split(text, ',');
    SplitFree(text, ',');
    var m := ParseParts(parts);
    if m.Some? && AllAcceptable(s.known, m.value) {
      ParsedClean(parts);
      SetMapInv(features, s, m.value);
    }
  }

  lemma SetMapInv(features: Known, s: State, m: Settings)
    requires Inv(features, s) && AllAcceptable(s.known, m) && forall k :: k in m ==> CleanName(k)
    ensures Inv(features, SetMap(s, m).state)
  {
    assert forall k :: k in m ==> Acceptable(s.known, k, m[k]);
  }

  lemma {:induction false} RunInv(features: Known, s: State, calls: seq<Call>)
    requires Inv(features, s)
    ensures Inv(features, Run(s, calls))
    decreases |calls|
  {
    if calls != [] {
      if calls[0].Set? { SetInv(features, s, calls[0].text); }
      RunInv(features, Apply1(s, calls[0]), calls[1..]);
    }
  }

  /** Whatever is called, locked features answer with their default and only known features answer. */
  lemma LockedStay(features: Known, calls: seq<Call>, k: string)
    ensures Enabled(Run(Fresh(features), calls), k).Some? <==> k in features
    ensures k in features && features[k].lockToDefault ==>
      Enabled(Run(Fresh(features), calls), k) == Some(features[k].default_)
  {
    RunInv(features, Fresh(features), calls);
  }

  // ---- Round trip ----

  lemma TrimClean(s: string)
    requires Trimmed(s)
    ensures TrimSpace(s) == s
  {
  }

  lemma BoolTextParses(b: bool)
    ensures ParseBool(TrimSpace(BoolText(b))) == Some(b)
    ensures ',' !in BoolText(b)
  {
    TrimClean(BoolText(b));
  }

  lemma PairTextPlain(k: string, v: bool)
    requires ',' !in k
    ensures PairText(k, v) != "" && ',' !in PairText(k, v)
  {
    BoolTextParses(v);
    assert PairText(k, v)[|k|] == '=';
  }

  lemma FromCutParses(arr: seq<string>, v: bool)
    requires |arr| == 2 && ParseBool(TrimSpace(arr[1])) == Some(v)
    ensures FromCut(arr) == Setting(TrimSpace(arr[0]), v)
  {
  }

  lemma PairParses(k: string, v: bool)
    requires CleanName(k)
    ensures ParsePair(PairText(k, v)) == Setting(k, v)
    ensures ',' !in PairText(k, v)
  {
    CutAt(k, BoolText(v), '=');
    TrimClean(k);
    BoolTextParses(v);
    PairTextPlain(k, v);
    FromCutParses([k, BoolText(v)], v);
  }

  /** A pair that says what `enabled` says. */
  predicate Says(enabled: Settings, p: Pair) {
    p.Setting? && p.key in enabled && enabled[p.key] == p.value
  }

  lemma {:induction false} CollectsPart(enabled: Settings, pairs: seq<Pair>)
    requires forall i :: 0 <= i < |pairs| ==> Says(enabled, pairs[i])
    ensures Collect(pairs).Some?
    ensures forall k :: k in Collect(pairs).value ==> k in enabled && enabled[k] == Collect(pairs).value[k]
    ensures forall i :: 0 <= i < |pairs| ==> Says(enabled, pairs[i]) && pairs[i].key in Collect(pairs).value
  {
    if pairs != [] {
      var n := |pairs| - 1;
      CollectsPart(enabled, pairs[..n]);
      assert Says(enabled, pairs[n]);
      assert forall i :: 0 <= i < n ==> pairs[i] == pairs[..n][i];
    }
  }

  lemma CollectsAll(enabled: Settings, pairs: seq<Pair>)
    requires forall i :: 0 <= i < |pairs| ==> Says(enabled, pairs[i])
    requires forall k :: k in enabled ==> Setting(k, enabled[k]) in pairs
    ensures Collect(pairs) == Some(enabled)
  {
    CollectsPart(enabled, pairs);
    forall k | k in enabled ensures k in Collect(pairs).value {
      var i :| 0 <= i < |pairs| && pairs[i] == Setting(k, enabled[k]);
      assert pairs[i].key in Collect(pairs).value;
    }
    assert Collect(pairs).value == enabled;
  }

  lemma NothingParses()
    ensures ParseParts(Split("", ',')) == Some(map[])
  {
    assert Apply(ParsePair, Split("", ',')) == [Empty];
    assert [Empty][..0] == [];
  }

  /** A printed pair reads as the setting of an enabled feature. */
  lemma PrintedPair(enabled: Settings, part: string)
    requires forall k :: k in enabled ==> CleanName(k)
    requires part in Apply(PairOf(enabled), SeqOf(enabled.Keys))
    ensures Says(enabled, ParsePair(part)) && ',' !in part
  {
    var keys := SeqOf(enabled.Keys);
    var j :| 0 <= j < |keys| && Apply(PairOf(enabled), keys)[j] == part;
    assert keys[j] in multiset(keys);
    PairParses(keys[j], enabled[keys[j]]);
  }

  lemma PairPrinted(enabled: Settings, k: string)
    requires k in enabled
    ensures PairText(k, enabled[k]) in Apply(PairOf(enabled), SeqOf(enabled.Keys))
  {
    var keys := SeqOf(enabled.Keys);
    assert k in multiset(keys);
    var j :| 0 <= j < |keys| && keys[j] == k;
    assert Apply(PairOf(enabled), keys)[j] == PairText(k, enabled[k]);
  }

  /** The printed pairs, in any order, read back as the settings. */
  lemma PairsParse(enabled: Settings, parts: seq<string>)
    requires forall k :: k in enabled ==> CleanName(k)
    requires multiset(parts) == multiset(Apply(PairOf(enabled), SeqOf(enabled.Keys)))
    ensures FreeOf(parts, ',')
    ensures ParseParts(parts) == Some(enabled)
  {
    SameElements(parts, Apply(PairOf(enabled), SeqOf(enabled.Keys)));
    var pairs := Apply(ParsePair, parts);
    forall i | 0 <= i < |parts| ensures Says(enabled, pairs[i]) && ',' !in parts[i] {
      PrintedPair(enabled, parts[i]);
    }
    forall k | k in enabled ensures Setting(k, enabled[k]) in pairs {
      PairPrinted(enabled, k);
      PairParses(k, enabled[k]);
      var i :| 0 <= i < |parts| && parts[i] == PairText(k, enabled[k]);
      assert pairs[i] == Setting(k, enabled[k]);
    }
    CollectsAll(enabled, pairs);
  }

  /** What `String` prints parses back to the settings. */
  lemma PrintedParses(enabled: Settings)
    requires forall k :: k in enabled ==> CleanName(k)
    ensures ParseParts(Split(Printed(enabled), ',')) == Some(enabled)
  {
    var sorted := SortStrings(Apply(PairOf(enabled), SeqOf(enabled.Keys)));
    PairsParse(enabled, sorted);
    if sorted == [] {
      NothingParses();
      assert Apply(ParsePair, sorted) == [];
    } else {
      SplitJoin(sorted, ',');
    }
  }

  /** The pairs that `String` prints ascend. */
  lemma PrintedSorted(enabled: Settings)
    requires forall k :: k in enabled ==> CleanName(k)
    ensures Ascending(Split(Printed(enabled), ','))
  {
    var sorted := SortStrings(Apply(PairOf(enabled), SeqOf(enabled.Keys)));
    PairsParse(enabled, sorted);
    SortStringsAscending(Apply(PairOf(enabled), SeqOf(enabled.Keys)));
    if sorted != [] {
      SplitJoin(sorted, ',');
    }
  }

  lemma SetParsed(features: Known, s: State, text: string)
    requires Inv(features, s) && ParseParts(Split(text, ',')) == Some(s.enabled)
    ensures SetText(Fresh(features), text) == Outcome(true, Fresh(features).(enabled := s.enabled))
  {
    assert AllAcceptable(features, s.enabled);
    assert map[] + s.enabled == s.enabled;
  }

  /**
   Feeding the text of a gate to a fresh gate with the same features rebuilds its settings, after any
   calls and for any feature names.
   */
  lemma GateRoundTrip(features: Known, calls: seq<Call>)
    ensures var s := Run(Fresh(features), calls);
      SetText(Fresh(features), Printed(s.enabled)) == Outcome(true, Fresh(features).(enabled := s.enabled))
  {
    var s := Run(Fresh(features), calls);
    RunInv(features, Fresh(features), calls);
    PrintedParses(s.enabled);
    SetParsed(features, s, Printed(s.enabled));
  }
}
