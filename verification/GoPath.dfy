/** Go's `path.Clean` and `path.Join`, on which both the patch paths and the name prefixes are built. */
module GoPath {
  import opened Strings

  /** One element of a path that `path.Clean` keeps where it stands. */
  predicate Segment(e: string) {
    e != "" && e != "." && e != ".." && '/' !in e
  }

  ghost predicate Segments(parts: seq<string>) {
    forall i :: 0 <= i < |parts| ==> Segment(parts[i])
  }

  function CleanStep(done: seq<string>, rooted: bool, e: string): seq<string> {
    if e == "" || e == "." then done
    else if e != ".." then done + [e]
    else if done != [] && done[|done| - 1] != ".." then done[..|done| - 1]
    else if rooted then done
    else done + [".."]
  }

  function CleanParts(done: seq<string>, rooted: bool, parts: seq<string>): seq<string>
    decreases |parts|
  {
    if parts == [] then done else CleanParts(CleanStep(done, rooted, parts[0]), rooted, parts[1..])
  }

  /** `path.Clean`. */
  function Clean(p: string): string {
    var rooted := p != "" && p[0] == '/';
    var body := Join(CleanParts([], rooted, Split(p, '/')), '/');
    if rooted then "/" + body else if body == "" then "." else body
  }

  /** `path.Join` of two elements; empty elements are ignored. */
  function JoinPath(a: string, b: string): string {
    if a == "" && b == "" then ""
    else if a == "" then Clean(b)
    else if b == "" then Clean(a)
    else Clean(a + "/" + b)
  }

  lemma {:induction false} CleanSegments(done: seq<string>, rooted: bool, parts: seq<string>)
    requires Segments(parts)
    ensures CleanParts(done, rooted, parts) == done + parts
    decreases |parts|
  {
    if parts == [] {
      assert done + parts == done;
    } else {
      assert Segment(parts[0]);
      CleanSegments(done + [parts[0]], rooted, parts[1..]);
      assert done + [parts[0]] + parts[1..] == done + parts;
    }
  }

  lemma {:induction false} JoinAppend(parts: seq<string>, e: string, sep: char)
    requires parts != []
    ensures Join(parts + [e], sep) == Join(parts, sep) + [sep] + e
  {
    if |parts| == 1 {
      assert (parts + [e])[1..] == [e];
    } else {
      assert (parts + [e])[1..] == parts[1..] + [e];
      JoinAppend(parts[1..], e, sep);
    }
  }

  lemma JoinCons(e: string, parts: seq<string>, sep: char)
    requires parts != []
    ensures Join([e] + parts, sep) == e + [sep] + Join(parts, sep)
  {
    assert ([e] + parts)[1..] == parts;
  }

  lemma CleanRelative(parts: seq<string>)
    requires parts != [] && Segments(parts)
    ensures Clean(Join(parts, '/')) == Join(parts, '/')
  {
    assert Segment(parts[0]);
    var p := Join(parts, '/');
    assert p[0] == parts[0][0] && p[0] != '/';
    SplitJoin(parts, '/');
    CleanSegments([], false, parts);
    assert [] + parts == parts;
  }

  lemma CleanRooted(parts: seq<string>)
    requires parts != [] && Segments(parts)
    ensures Clean("/" + Join(parts, '/')) == "/" + Join(parts, '/')
    ensures Split("/" + Join(parts, '/'), '/') == [""] + parts
  {
    var all := [""] + parts;
    JoinCons("", parts, '/');
    var p := "/" + Join(parts, '/');
    assert p == Join(all, '/');
    forall i | 0 <= i < |all| ensures '/' !in all[i] {
      assert i > 0 ==> Segment(parts[i - 1]);
    }
    SplitJoin(all, '/');
    assert all[1..] == parts;
    assert CleanParts([], true, all) == CleanParts([], true, parts);
    CleanSegments([], true, parts);
    assert [] + parts == parts;
  }

  /** Joining a namespace and a plain name is concatenation. */
  lemma JoinName(ns: string, name: string)
    requires Segment(ns) && Segment(name)
    ensures JoinPath(ns, name) == ns + "/" + name
  {
    assert Join([ns, name], '/') == ns + "/" + name by {
      assert [ns, name][1..] == [name];
    }
    CleanRelative([ns, name]);
  }
}
