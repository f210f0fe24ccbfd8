/** Feature files of the local source: `parseDirectives` and `parseFeatureFile` of source/local/local.go. */
module FeatureFile {
  import opened Strings

  const DIRECTIVE := "# +"
  const EXPIRY_TIME := "expiry-time"
  const NO_FEATURE := "no-feature"
  const NO_LABEL := "no-label"

  /** RFC 3339 times as seconds, where the text is one. */
  type Clock = string -> Option<int>

  // ---- What a line says ----

  datatype Line = Nothing | Expiry(time: int) | NoFeature | NoLabel | Entry(key: string, value: string)

  /** A directive, split at the first equals sign. */
  function FromDirective(split: seq<string>, clock: Clock): Line
    requires 1 <= |split| <= 2
  {
    var key := split[0];
    if key == EXPIRY_TIME then
      if |split| == 1 then Nothing
      else
        var time := clock(TrimSpace(split[1]));
        if time.None? then Nothing else Expiry(time.value)
    else if key == NO_FEATURE then NoFeature
    else if key == NO_LABEL then NoLabel
    else Nothing
  }

  /** A directive line; malformed and unknown directives are reported and change nothing. */
  function Directive(line: string, clock: Clock): Line {
    if DIRECTIVE <= line then FromDirective(Cut(line[|DIRECTIVE|..], '='), clock) else Nothing
  }

  function Classify(raw: string, clock: Clock): Line {
    var line := TrimSpace(raw);
    if line == "" then Nothing
    else if line[0] == '#' then Directive(line, clock)
    else
      var split := Cut(line, '=');
      Entry(split[0], if |split| == 1 then "true" else split[1])
  }

  // ---- Declarative meaning of a file ----

  /** The expiry time in force at line `i`: the last one set before it, or the time of parsing. */
  function ExpiryAt(ks: seq<Line>, i: nat, now: int): int
    requires i <= |ks|
  {
    if i == 0 then now else if ks[i - 1].Expiry? then ks[i - 1].time else ExpiryAt(ks, i - 1, now)
  }

  /** An entry line that has not expired. */
  ghost predicate Live(ks: seq<Line>, i: int, now: int) {
    0 <= i < |ks| && ks[i].Entry? && ExpiryAt(ks, i, now) >= now
  }

  /** A directive of this kind stands before line `i` with no live entry in between. */
  ghost predicate Marked(ks: seq<Line>, i: nat, now: int, kind: Line) {
    exists j :: 0 <= j < i && j < |ks| && ks[j] == kind && forall m :: j < m < i ==> !Live(ks, m, now)
  }

  /** Line `i` is the last live entry for the key among the first `n` lines. */
  ghost predicate Last(ks: seq<Line>, n: nat, now: int, key: string, i: int) {
    && i < n && Live(ks, i, now) && ks[i].key == key
    && forall m :: i < m < n && Live(ks, m, now) ==> ks[m].key != key
  }

  /** How the first `n` lines leave a key, in the map of features or labels. */
  ghost predicate LeavesKey(m: Items, ks: seq<Line>, n: nat, now: int, kind: Line, key: string) {
    && (key in m ==> exists i :: Last(ks, n, now, key, i) && !Marked(ks, i, now, kind) && m[key] == ks[i].value)
    && (forall i :: Last(ks, n, now, key, i) && !Marked(ks, i, now, kind) ==> key in m)
  }

  /** The map that the first `n` lines leave, for features or labels. */
  ghost predicate Leaves(m: Items, ks: seq<Line>, n: nat, now: int, kind: Line) {
    forall key :: LeavesKey(m, ks, n, now, kind, key)
  }

  // ---- Step by step ----

  datatype Options = Options(expiryTime: int, skipLabel: bool, skipFeature: bool)

  /** `parseDirectives`, without its error report. */
  function ParseDirective(d: Line, opts: Options): Options {
    match d
    case Expiry(time) => opts.(expiryTime := time)
    case NoFeature => opts.(skipFeature := true)
    case NoLabel => opts.(skipLabel := true)
    case _ => opts
  }

  lemma MarkedNext(ks: seq<Line>, i: nat, now: int, kind: Line)
    requires i < |ks| && !kind.Entry?
    ensures Marked(ks, i + 1, now, kind) <==> ks[i] == kind || (Marked(ks, i, now, kind) && !Live(ks, i, now))
  {
    if ks[i] == kind {
      assert forall m :: i < m < i + 1 ==> !Live(ks, m, now);
    }
    if Marked(ks, i, now, kind) && !Live(ks, i, now) {
      var j :| 0 <= j < i && ks[j] == kind && forall m :: j < m < i ==> !Live(ks, m, now);
      assert forall m :: j < m < i + 1 ==> !Live(ks, m, now);
    }
  }

  lemma LastNext(ks: seq<Line>, n: nat, now: int, key: string, i: int)
    requires n < |ks|
    ensures Last(ks, n + 1, now, key, i) <==>
      if Live(ks, n, now) && ks[n].key == key then i == n else Last(ks, n, now, key, i)
  {
  }

  lemma LeavesNothing(m: Items, ks: seq<Line>, n: nat, now: int, kind: Line)
    requires n < |ks| && Leaves(m, ks, n, now, kind) && !Live(ks, n, now)
    ensures Leaves(m, ks, n + 1, now, kind)
  {
    var next: nat := n + 1;
    forall key ensures LeavesKey(m, ks, next, now, kind, key) {
      assert LeavesKey(m, ks, n, now, kind, key);
      forall i ensures Last(ks, next, now, key, i) <==> Last(ks, n, now, key, i) {
        LastNext(ks, n, now, key, i);
      }
    }
  }

  function Updated(m: Items, key: string, value: string, skip: bool): Items {
    if skip then m - {key} else m[key := value]
  }

  lemma LeavesSameKey(m: Items, ks: seq<Line>, n: nat, now: int, kind: Line)
    requires n < |ks| && Live(ks, n, now)
    ensures LeavesKey(Updated(m, ks[n].key, ks[n].value, Marked(ks, n, now, kind)), ks, n + 1, now, kind, ks[n].key)
  {
    var next: nat := n + 1;
    forall i ensures Last(ks, next, now, ks[n].key, i) <==> i == n {
      LastNext(ks, n, now, ks[n].key, i);
    }
  }

  lemma LeavesOtherKey(m: Items, m': Items, ks: seq<Line>, n: nat, now: int, kind: Line, key: string)
    requires n < |ks| && Live(ks, n, now) && LeavesKey(m, ks, n, now, kind, key) && key != ks[n].key
    requires (key in m <==> key in m') && (key in m ==> m[key] == m'[key])
    ensures LeavesKey(m', ks, n + 1, now, kind, key)
  {
    forall i ensures Last(ks, n + 1, now, key, i) <==> Last(ks, n, now, key, i) {
      LastNext(ks, n, now, key, i);
    }
  }

  lemma LeavesEntry(m: Items, ks: seq<Line>, n: nat, now: int, kind: Line)
    requires n < |ks| && Leaves(m, ks, n, now, kind) && Live(ks, n, now)
    ensures Leaves(Updated(m, ks[n].key, ks[n].value, Marked(ks, n, now, kind)), ks, n + 1, now, kind)
  {
    var m' := Updated(m, ks[n].key, ks[n].value, Marked(ks, n, now, kind));
    var next: nat := n + 1;
    forall key ensures LeavesKey(m', ks, next, now, kind, key) {
      assert LeavesKey(m, ks, n, now, kind, key);
      if key == ks[n].key {
        LeavesSameKey(m, ks, n, now, kind);
      } else {
        LeavesOtherKey(m, m', ks, n, now, kind, key);
      }
    }
  }

  /** The parser state and maps after the first `i` lines. */
  ghost predicate Parsed(ks: seq<Line>, i: nat, now: int, opts: Options, features: Items, labels: Items)
    requires i <= |ks|
  {
    && opts.expiryTime == ExpiryAt(ks, i, now)
    && (opts.skipFeature <==> Marked(ks, i, now, NoFeature))
    && (opts.skipLabel <==> Marked(ks, i, now, NoLabel))
    && Leaves(features, ks, i, now, NoFeature)
    && Leaves(labels, ks, i, now, NoLabel)
  }

  lemma ParsedSkip(ks: seq<Line>, i: nat, now: int, opts: Options, features: Items, labels: Items)
    requires i < |ks| && Parsed(ks, i, now, opts, features, labels)
    requires !ks[i].Entry? || opts.expiryTime < now
    ensures Parsed(ks, i + 1, now, if ks[i].Entry? then opts else ParseDirective(ks[i], opts), features, labels)
  {
    MarkedNext(ks, i, now, NoFeature);
    MarkedNext(ks, i, now, NoLabel);
    LeavesNothing(features, ks, i, now, NoFeature);
    LeavesNothing(labels, ks, i, now, NoLabel);
  }

  lemma ParsedEntry(ks: seq<Line>, i: nat, now: int, opts: Options, features: Items, labels: Items)
    requires i < |ks| && Parsed(ks, i, now, opts, features, labels)
    requires ks[i].Entry? && opts.expiryTime >= now
    ensures Parsed(ks, i + 1, now, opts.(skipFeature := false, skipLabel := false),
      Updated(features, ks[i].key, ks[i].value, opts.skipFeature),
      Updated(labels, ks[i].key, ks[i].value, opts.skipLabel))
  {
    MarkedNext(ks, i, now, NoFeature);
    MarkedNext(ks, i, now, NoLabel);
    LeavesEntry(features, ks, i, now, NoFeature);
    LeavesEntry(labels, ks, i, now, NoLabel);
  }

  /** The line loop, on what the lines say. */
  method ParseLines(ks: seq<Line>, now: int) returns (features: Items, labels: Items)
    ensures Leaves(features, ks, |ks|, now, NoFeature)
    ensures Leaves(labels, ks, |ks|, now, NoLabel)
  {
    features, labels := map[], map[];
    var opts := Options(now, false, false);
    for i := 0 to |ks|
      invariant Parsed(ks, i, now, opts, features, labels)
    {
      var line := ks[i];
      if !line.Entry? {
        ParsedSkip(ks, i, now, opts, features, labels);
        opts := ParseDirective(line, opts);
        continue;
      }
      if opts.expiryTime < now {
        ParsedSkip(ks, i, now, opts, features, labels);
        continue;
      }
      ParsedEntry(ks, i, now, opts, features, labels);
      features := Updated(features, line.key, line.value, opts.skipFeature);
      labels := Updated(labels, line.key, line.value, opts.skipLabel);
      opts := opts.(skipFeature := false, skipLabel := false);
    }
  }

  /** What the lines of a file say. */
  function Said(lines: seq<string>, clock: Clock): seq<Line> {
    seq(|lines|, i requires 0 <= i < |lines| => Classify(lines[i], clock))
  }

  /**
   `parseFeatureFile`: a key ends up in features (labels) exactly when its last live entry has no
   no-feature (no-label) directive between it and the live entry before, with the value of that line.
   */
  method ParseFeatureFile(lines: seq<string>, clock: Clock, now: int) returns (features: Items, labels: Items)
    ensures Leaves(features, Said(lines, clock), |lines|, now, NoFeature)
    ensures Leaves(labels, Said(lines, clock), |lines|, now, NoLabel)
  {
    features, labels := ParseLines(Said(lines, clock), now);
  }

  lemma LeavesAgree(a: Items, b: Items, ks: seq<Line>, now: int, kind: Line, key: string)
    requires Leaves(a, ks, |ks|, now, kind) && Leaves(b, ks, |ks|, now, kind) && key in a
    ensures key in b && a[key] == b[key]
  {
    assert LeavesKey(a, ks, |ks|, now, kind, key) && LeavesKey(b, ks, |ks|, now, kind, key);
    var i :| Last(ks, |ks|, now, key, i) && !Marked(ks, i, now, kind) && a[key] == ks[i].value;
    var j :| Last(ks, |ks|, now, key, j) && !Marked(ks, j, now, kind) && b[key] == ks[j].value;
    assert i == j;
  }

  /** The declarative meaning pins the map down. */
  lemma LeavesUnique(a: Items, b: Items, ks: seq<Line>, now: int, kind: Line)
    requires Leaves(a, ks, |ks|, now, kind) && Leaves(b, ks, |ks|, now, kind)
    ensures a == b
  {
    forall key ensures (key in a <==> key in b) && (key in a ==> a[key] == b[key]) {
      if key in a { LeavesAgree(a, b, ks, now, kind, key); }
      if key in b { LeavesAgree(b, a, ks, now, kind, key); }
    }
  }
}
