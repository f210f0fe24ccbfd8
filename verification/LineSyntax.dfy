/**
 What the raw lines of a feature file mean (source/local/local.go), by the text of the lines and what
 `parseFeatureFile` makes of them.
 */
module LineSyntax {
  import opened Strings
  import opened FeatureFile

  // ---- White space ----

  predicate Blank(s: string) {
    forall i :: 0 <= i < |s| ==> IsSpace(s[i])
  }

  lemma {:induction false} TrimLeftPadded(pad: string, s: string)
    requires Blank(pad)
    ensures TrimLeft(pad + s) == TrimLeft(s)
  {
    if pad == "" {
      assert pad + s == s;
    } else {
      assert (pad + s)[0] == pad[0] && (pad + s)[1..] == pad[1..] + s;
      TrimLeftPadded(pad[1..], s);
    }
  }

  lemma {:induction false} TrimRightPadded(s: string, pad: string)
    requires Blank(pad)
    ensures TrimRight(s + pad) == TrimRight(s)
  {
    if pad == "" {
      assert s + pad == s;
    } else {
      var all, k := s + pad, |pad| - 1;
      assert all[|all| - 1] == pad[k] && all[..|all| - 1] == s + pad[..k];
      TrimRightPadded(s, pad[..k]);
    }
  }

  lemma TrimmedStays(s: string)
    requires Trimmed(s)
    ensures TrimSpace(s) == s
  {
  }

  lemma {:induction false} TrimLeftBlank(pad: string)
    requires Blank(pad)
    ensures TrimLeft(pad) == ""
  {
    if pad != "" {
      TrimLeftBlank(pad[1..]);
    }
  }

  lemma TrimLeftNone(s: string)
    requires s == "" || !IsSpace(s[0])
    ensures TrimLeft(s) == s
  {
  }

  lemma TrimLeftPast(pad: string, s: string)
    requires Blank(pad) && s != "" && !IsSpace(s[0])
    ensures TrimLeft(pad + s) == s
  {
    TrimLeftPadded(pad, s);
    TrimLeftNone(s);
  }

  lemma PadInFront(before: string, line: string, after: string)
    requires line != ""
    ensures before + line + after == before + (line + after) && (line + after)[0] == line[0]
  {
  }

  lemma BlankConcat(a: string, b: string)
    requires Blank(a) && Blank(b)
    ensures Blank(a + "" + b)
  {
  }

  lemma TrimSpacePadded(before: string, line: string, after: string)
    requires Blank(before) && Blank(after) && Trimmed(line)
    ensures TrimSpace(before + line + after) == line
  {
    if line == "" {
      BlankConcat(before, after);
      TrimLeftBlank(before + line + after);
    } else {
      PadInFront(before, line, after);
      TrimLeftPast(before, line + after);
      TrimRightPadded(line, after);
      TrimmedStays(line);
    }
  }

  lemma ClassifyTrimmed(a: string, b: string, clock: Clock)
    requires TrimSpace(a) == TrimSpace(b)
    ensures Classify(a, clock) == Classify(b, clock)
  {
  }

  /** White space around a line does not count. */
  lemma PaddedLine(before: string, line: string, after: string, clock: Clock)
    requires Blank(before) && Blank(after) && Trimmed(line)
    ensures Classify(before + line + after, clock) == Classify(line, clock)
  {
    TrimSpacePadded(before, line, after);
    TrimmedStays(line);
    ClassifyTrimmed(before + line + after, line, clock);
  }

  // ---- Lines ----

  /** A line `k=v` that is no comment is an entry, split at the first equals sign. */
  lemma EntryLine(k: string, v: string, clock: Clock)
    requires var line := k + ['='] + v; '=' !in k && Trimmed(line) && line[0] != '#'
    ensures Classify(k + ['='] + v, clock) == Entry(k, v)
  {
    TrimmedStays(k + ['='] + v);
    CutAt(k, v, '=');
  }

  /** A line without equals sign is an entry for `true`. */
  lemma FlagLine(k: string, clock: Clock)
    requires k != "" && '=' !in k && Trimmed(k) && k[0] != '#'
    ensures Classify(k, clock) == Entry(k, "true")
  {
    TrimmedStays(k);
  }

  /** A comment that is no directive says nothing. */
  lemma CommentLine(line: string, clock: Clock)
    requires line != "" && line[0] == '#' && Trimmed(line) && !(DIRECTIVE <= line)
    ensures Classify(line, clock) == Nothing
  {
    TrimmedStays(line);
  }

  lemma DirectiveHead(name: string)
    requires name != "" && Trimmed(name)
    ensures Trimmed(DIRECTIVE + name) && (DIRECTIVE + name)[0] == '#'
    ensures DIRECTIVE <= DIRECTIVE + name && (DIRECTIVE + name)[|DIRECTIVE|..] == name
  {
    var line := DIRECTIVE + name;
    assert line[0] == DIRECTIVE[0] && line[|line| - 1] == name[|name| - 1];
  }

  lemma DirectiveLine(name: string, clock: Clock)
    requires name != "" && Trimmed(name)
    ensures Classify(DIRECTIVE + name, clock) == FromDirective(Cut(name, '='), clock)
  {
    DirectiveHead(name);
    TrimmedStays(DIRECTIVE + name);
  }

  lemma DirectiveNames()
    ensures NO_FEATURE != NO_LABEL && NO_FEATURE != EXPIRY_TIME && NO_LABEL != EXPIRY_TIME
    ensures '=' !in NO_FEATURE && '=' !in NO_LABEL && '=' !in EXPIRY_TIME
    ensures Trimmed(NO_FEATURE) && Trimmed(NO_LABEL) && !IsSpace(EXPIRY_TIME[0])
  {
    assert NO_FEATURE[3] != NO_LABEL[3] && NO_FEATURE[0] != EXPIRY_TIME[0] && NO_LABEL[0] != EXPIRY_TIME[0];
  }

  lemma BareDirective(name: string, clock: Clock, kind: Line)
    requires name != "" && Trimmed(name) && '=' !in name
    requires (name == NO_FEATURE && kind == NoFeature) || (name == NO_LABEL && kind == NoLabel)
    ensures Classify(DIRECTIVE + name, clock) == kind
  {
    DirectiveLine(name, clock);
    DirectiveNames();
    assert Cut(name, '=') == [name];
  }

  /** The directive lines without a value. */
  lemma SkipLines(clock: Clock)
    ensures Classify(DIRECTIVE + NO_FEATURE, clock) == NoFeature
    ensures Classify(DIRECTIVE + NO_LABEL, clock) == NoLabel
  {
    DirectiveNames();
    BareDirective(NO_FEATURE, clock, NoFeature);
    BareDirective(NO_LABEL, clock, NoLabel);
  }

  lemma ExpiryOf(split: seq<string>, clock: Clock)
    requires |split| == 2 && split[0] == EXPIRY_TIME
    ensures FromDirective(split, clock) ==
      var t := clock(TrimSpace(split[1])); if t.Some? then Expiry(t.value) else Nothing
  {
  }

  lemma ExpiryDirective(name: string, key: string, time: string, clock: Clock)
    requires name == key + ['='] + time && key == EXPIRY_TIME && '=' !in key && name != "" && Trimmed(name)
    ensures Classify(DIRECTIVE + name, clock) ==
      var t := clock(TrimSpace(time)); if t.Some? then Expiry(t.value) else Nothing
  {
    DirectiveLine(name, clock);
    CutAt(key, time, '=');
    ExpiryOf([key, time], clock);
  }

  /** The expiry directive takes the time written after the equals sign, and says nothing if that is no time. */
  lemma ExpiryLine(time: string, clock: Clock)
    requires time != "" && !IsSpace(time[|time| - 1])
    ensures Classify(DIRECTIVE + (EXPIRY_TIME + ['='] + time), clock) ==
      var t := clock(TrimSpace(time)); if t.Some? then Expiry(t.value) else Nothing
  {
    DirectiveNames();
    var key := EXPIRY_TIME;
    var name := key + ['='] + time;
    assert name[0] == key[0] && name[|name| - 1] == time[|time| - 1];
    ExpiryDirective(name, key, time, clock);
  }

  // ---- Directives in a file ----

  /** The last live entry of a key decides about it. */
  lemma LastOnly(m: Items, ks: seq<Line>, now: int, kind: Line, k: string, i: nat)
    requires Leaves(m, ks, |ks|, now, kind) && Last(ks, |ks|, now, k, i)
    ensures k in m <==> !Marked(ks, i, now, kind)
    ensures k in m ==> m[k] == ks[i].value
  {
    assert LeavesKey(m, ks, |ks|, now, kind, k);
    if k in m {
      var j :| Last(ks, |ks|, now, k, j) && !Marked(ks, j, now, kind) && m[k] == ks[j].value;
      assert i == j;
    }
  }

  /** A directive of one kind right before the deciding entry: out of one map, in the other unless marked there too. */
  lemma SkipBefore(ks: seq<Line>, now: int, skipped: Items, other: Items, kind: Line, otherKind: Line, i: nat,
      k: string)
    requires Leaves(skipped, ks, |ks|, now, kind) && Leaves(other, ks, |ks|, now, otherKind)
    requires !kind.Entry? && !otherKind.Entry? && kind != otherKind
    requires i + 1 < |ks| && ks[i] == kind && Last(ks, |ks|, now, k, i + 1)
    ensures k !in skipped
    ensures k in other <==> !Marked(ks, i, now, otherKind)
    ensures k in other ==> other[k] == ks[i + 1].value
  {
    MarkedNext(ks, i, now, kind);
    MarkedNext(ks, i, now, otherKind);
    LastOnly(skipped, ks, now, kind, k, i + 1);
    LastOnly(other, ks, now, otherKind, k, i + 1);
  }

  /** The file leaves these features and labels, and line `i` is the last entry for the key that has not expired. */
  ghost predicate Decides(lines: seq<string>, clock: Clock, now: int, features: Items, labels: Items, i: nat, k: string)
  {
    var ks := Said(lines, clock);
    && Leaves(features, ks, |lines|, now, NoFeature) && Leaves(labels, ks, |lines|, now, NoLabel)
    && Last(ks, |lines|, now, k, i)
  }

  /**
   A `no-label` line right before the deciding line of a key: the key is no label, and it is a feature with
   the value of that line unless `no-feature` stands before it too.
   */
  lemma NoLabelBefore(lines: seq<string>, clock: Clock, now: int, features: Items, labels: Items, i: nat, k: string)
    requires Decides(lines, clock, now, features, labels, i + 1, k) && lines[i] == DIRECTIVE + NO_LABEL
    ensures k !in labels
    ensures k in features <==> !Marked(Said(lines, clock), i, now, NoFeature)
    ensures k in features ==> Entry(k, features[k]) == Classify(lines[i + 1], clock)
  {
    SkipLines(clock);
    SkipBefore(Said(lines, clock), now, labels, features, NoLabel, NoFeature, i, k);
  }

  /** The same with the roles of features and labels exchanged. */
  lemma NoFeatureBefore(lines: seq<string>, clock: Clock, now: int, features: Items, labels: Items, i: nat, k: string)
    requires Decides(lines, clock, now, features, labels, i + 1, k) && lines[i] == DIRECTIVE + NO_FEATURE
    ensures k !in features
    ensures k in labels <==> !Marked(Said(lines, clock), i, now, NoLabel)
    ensures k in labels ==> Entry(k, labels[k]) == Classify(lines[i + 1], clock)
  {
    SkipLines(clock);
    SkipBefore(Said(lines, clock), now, features, labels, NoFeature, NoLabel, i, k);
  }

  lemma TwoSaid(ks: seq<Line>, k: string, v: string, now: int, features: Items, labels: Items)
    requires |ks| == 2 && ks[0] == NoLabel && ks[1] == Entry(k, v)
    requires Leaves(features, ks, 2, now, NoFeature) && Leaves(labels, ks, 2, now, NoLabel)
    ensures k in features && features[k] == v && k !in labels
  {
    assert ExpiryAt(ks, 1, now) == ExpiryAt(ks, 0, now);
    assert Last(ks, 2, now, k, 1);
    SkipBefore(ks, now, labels, features, NoLabel, NoFeature, 0, k);
  }

  lemma SaidAt(lines: seq<string>, clock: Clock, i: nat)
    requires i < |lines|
    ensures Said(lines, clock)[i] == Classify(lines[i], clock)
  {
  }

  /** In a file of a `no-label` line and a line `k=v` the key is a feature with this value and no label. */
  lemma TwoLines(first: string, second: string, k: string, v: string, clock: Clock, now: int, features: Items,
      labels: Items)
    requires first == DIRECTIVE + NO_LABEL && second == k + ['='] + v
    requires '=' !in k && Trimmed(second) && second[0] != '#'
    requires Leaves(features, Said([first, second], clock), 2, now, NoFeature)
    requires Leaves(labels, Said([first, second], clock), 2, now, NoLabel)
    ensures k in features && features[k] == v && k !in labels
  {
    SkipLines(clock);
    EntryLine(k, v, clock);
    SaidAt([first, second], clock, 0);
    SaidAt([first, second], clock, 1);
    TwoSaid(Said([first, second], clock), k, v, now, features, labels);
  }
}
