/**
 The names an instance of the master uses on a node: `instanceAnnotation`, the constants of
 api/nfd/v1alpha1/annotations_labels.go, and the namespace rule of pkg/apis/nfd/validate/validate.go
 that keeps feature annotations away from them.
 */
module Instance {
  import opened Strings
  import opened GoPath
  import opened JsonPatch
  import opened Tracking
  import opened NodeUpdate

  /** Instance names hold only alphanumerics, `-`, `_` and `.`. */
  predicate ValidInstance(instance: string) {
    '/' !in instance && '~' !in instance
  }

  /** `instanceAnnotation`. */
  function InstanceAnnotation(instance: string, name: string): string {
    if instance == "" then name else instance + "." + name
  }

  function Key(instance: string, name: string): string {
    InstanceAnnotation(instance, ANNOTATION_NS + "/" + name)
  }

  function MasterConfig(instance: string, allowOverwrite: bool, asInt: string -> string): Config {
    Config(FEATURE_NS, InstanceAnnotation(instance, ANNOTATION_NS),
      Key(instance, "feature-labels"), Key(instance, "extended-resources"), Key(instance, "feature-annotations"),
      Key(instance, "master.version"), Key(instance, "worker.version"), allowOverwrite, asInt)
  }

  predicate HasSuffix(s: string, suffix: string) {
    |suffix| <= |s| && s[|s| - |suffix|..] == suffix
  }

  /** The namespace rule of `validate.Annotation`. */
  predicate AnnotationNsAllowed(ns: string) {
    (ns == "kubernetes.io" || HasSuffix(ns, ".kubernetes.io")) ==>
      ns == FEATURE_NS || HasSuffix(ns, "." + FEATURE_NS)
  }

  lemma NamespaceConstants()
    ensures Namespace(FEATURE_NS)
    ensures '/' !in ANNOTATION_NS && '~' !in ANNOTATION_NS && |ANNOTATION_NS| == 22
  {
  }

  lemma AnnotationNsDenied(ns: string, front: string)
    requires ns == front + ANNOTATION_NS
    ensures !AnnotationNsAllowed(ns)
  {
    assert |ANNOTATION_NS| == 22 && ANNOTATION_NS[8..] == ".kubernetes.io";
    assert ns[|ns| - 14..] == ANNOTATION_NS[8..];
    assert ns[|ns| - 20] == ANNOTATION_NS[2] == 'd';
    assert |FEATURE_NS| == 26 && FEATURE_NS[6] == 'e';
  }

  function Front(instance: string): string {
    if instance == "" then "" else instance + "."
  }

  lemma KeyShape(instance: string, name: string)
    ensures Key(instance, name) == Front(instance) + ANNOTATION_NS + "/" + name
    ensures InstanceAnnotation(instance, ANNOTATION_NS) == Front(instance) + ANNOTATION_NS
    ensures InstanceAnnotation(instance, ANNOTATION_NS) <= Key(instance, name)
  {
  }

  lemma KeyText(instance: string, name: string, text: string)
    requires text == ANNOTATION_NS + "/" + name
    ensures Key(instance, name) == Front(instance) + text
  {
    KeyShape(instance, name);
    assert Front(instance) + ANNOTATION_NS + "/" + name == Front(instance) + text;
  }

  /** The names that other programs see on a node: the plain ones, or those of an instance, prefixed with its name. */
  lemma TrackingKeys(instance: string, allowOverwrite: bool, asInt: string -> string)
    ensures var cfg, front := MasterConfig(instance, allowOverwrite, asInt), Front(instance);
      && cfg.labelsKey == front + "nfd.node.kubernetes.io/feature-labels"
      && cfg.resourcesKey == front + "nfd.node.kubernetes.io/extended-resources"
  {
    KeyText(instance, "feature-labels", "nfd.node.kubernetes.io/feature-labels");
    KeyText(instance, "extended-resources", "nfd.node.kubernetes.io/extended-resources");
  }

  lemma AnnotationKeys(instance: string, allowOverwrite: bool, asInt: string -> string)
    ensures var cfg, front := MasterConfig(instance, allowOverwrite, asInt), Front(instance);
      && cfg.prefix == front + "nfd.node.kubernetes.io"
      && cfg.annotationsKey == front + "nfd.node.kubernetes.io/feature-annotations"
  {
    KeyText(instance, "feature-annotations", "nfd.node.kubernetes.io/feature-annotations");
  }

  lemma VersionKeys(instance: string, allowOverwrite: bool, asInt: string -> string)
    ensures var cfg, front := MasterConfig(instance, allowOverwrite, asInt), Front(instance);
      && cfg.masterVersionKey == front + "nfd.node.kubernetes.io/master.version"
      && cfg.workerVersionKey == front + "nfd.node.kubernetes.io/worker.version"
  {
    KeyText(instance, "master.version", "nfd.node.kubernetes.io/master.version");
    KeyText(instance, "worker.version", "nfd.node.kubernetes.io/worker.version");
  }

  lemma KeyPatchable(instance: string, name: string)
    requires ValidInstance(instance) && '~' !in name
    ensures Patchable(Key(instance, name))
  {
    NamespaceConstants();
    KeyShape(instance, name);
    assert |Key(instance, name)| >= 22;
  }

  lemma KeysDiffer(instance: string, a: string, b: string)
    requires |a| != |b|
    ensures Key(instance, a) != Key(instance, b)
  {
    KeyShape(instance, a);
    KeyShape(instance, b);
  }

  lemma KeyDenied(instance: string, name: string)
    requires ValidInstance(instance)
    ensures !AnnotationNsAllowed(Cut(Key(instance, name), '/')[0])
  {
    NamespaceConstants();
    KeyShape(instance, name);
    var ns := Front(instance) + ANNOTATION_NS;
    CutAt(ns, name, '/');
    AnnotationNsDenied(ns, Front(instance));
  }

  lemma FiveKeys(a: string, b: string, c: string, d: string, e: string, prefix: string)
    requires Patchable(a) && Patchable(b) && Patchable(c) && Patchable(d) && Patchable(e)
    requires prefix <= a && prefix <= b && prefix <= c && prefix <= d && prefix <= e
    ensures forall k :: k in {a, b, c, d, e} ==> Patchable(k) && prefix <= k
  {
  }

  /** The configuration of any valid instance meets what the theorems on updates ask for. */
  lemma MasterConfigValid(instance: string, allowOverwrite: bool, asInt: string -> string)
    requires ValidInstance(instance)
    ensures ValidConfig(MasterConfig(instance, allowOverwrite, asInt))
  {
    var cfg := MasterConfig(instance, allowOverwrite, asInt);
    NamespaceConstants();
    KeysDiffer(instance, "feature-labels", "extended-resources");
    KeysDiffer(instance, "feature-labels", "feature-annotations");
    KeysDiffer(instance, "extended-resources", "feature-annotations");
    ReservedShape(instance, allowOverwrite, asInt);
  }

  lemma ReservedShape(instance: string, allowOverwrite: bool, asInt: string -> string)
    requires ValidInstance(instance)
    ensures var cfg := MasterConfig(instance, allowOverwrite, asInt);
      forall k :: k in cfg.Reserved() ==> Patchable(k) && cfg.prefix <= k
  {
    var cfg := MasterConfig(instance, allowOverwrite, asInt);
    KeyPatchable(instance, "feature-labels");
    KeyPatchable(instance, "extended-resources");
    KeyPatchable(instance, "feature-annotations");
    KeyPatchable(instance, "master.version");
    KeyPatchable(instance, "worker.version");
    KeyShape(instance, "feature-labels");
    KeyShape(instance, "extended-resources");
    KeyShape(instance, "feature-annotations");
    KeyShape(instance, "master.version");
    KeyShape(instance, "worker.version");
    FiveKeys(cfg.labelsKey, cfg.resourcesKey, cfg.annotationsKey, cfg.masterVersionKey, cfg.workerVersionKey,
      cfg.prefix);
  }

  lemma FiveApart(a: string, b: string, c: string, d: string, e: string, s: set<string>)
    requires a !in s && b !in s && c !in s && d !in s && e !in s
    ensures s !! {a, b, c, d, e}
  {
  }

  /** Annotations that pass the namespace rule never collide with the ones the master keeps for itself. */
  lemma AllowedNotReserved(instance: string, allowOverwrite: bool, asInt: string -> string, annotations: Items)
    requires ValidInstance(instance)
    requires forall k :: k in annotations ==> AnnotationNsAllowed(Cut(k, '/')[0])
    ensures annotations.Keys !! MasterConfig(instance, allowOverwrite, asInt).Reserved()
  {
    var cfg := MasterConfig(instance, allowOverwrite, asInt);
    KeyDenied(instance, "feature-labels");
    KeyDenied(instance, "extended-resources");
    KeyDenied(instance, "feature-annotations");
    KeyDenied(instance, "master.version");
    KeyDenied(instance, "worker.version");
    FiveApart(cfg.labelsKey, cfg.resourcesKey, cfg.annotationsKey, cfg.masterVersionKey, cfg.workerVersionKey,
      annotations.Keys);
  }

  // ---- What validation guarantees ----

  predicate IsLower(c: char) { 'a' <= c <= 'z' || '0' <= c <= '9' }

  predicate IsAlnum(c: char) { IsLower(c) || 'A' <= c <= 'Z' }

  /** The name part of a qualified name. */
  predicate ValidName(name: string) {
    && 1 <= |name| <= 63 && IsAlnum(name[0]) && IsAlnum(name[|name| - 1])
    && forall i :: 0 <= i < |name| ==> IsAlnum(name[i]) || name[i] in "-_."
  }

  predicate ValidDnsLabel(part: string) {
    && part != "" && IsLower(part[0]) && IsLower(part[|part| - 1])
    && forall i :: 0 <= i < |part| ==> IsLower(part[i]) || part[i] == '-'
  }

  /** A DNS subdomain. */
  predicate ValidPrefix(prefix: string) {
    && 1 <= |prefix| <= 253 && (forall i :: 0 <= i < |prefix| ==> IsLower(prefix[i]) || prefix[i] in "-.")
    && forall i :: 0 <= i < |Split(prefix, '.')| ==> ValidDnsLabel(Split(prefix, '.')[i])
  }

  /** `IsQualifiedName` of Kubernetes: a name, or a DNS subdomain, a slash and a name. */
  predicate Qualified(key: string) {
    var parts := Cut(key, '/');
    if |parts| == 1 then ValidName(key) else ValidPrefix(parts[0]) && ValidName(parts[1])
  }

  lemma NamePlain(name: string)
    requires ValidName(name)
    ensures Segment(name) && ',' !in name && '~' !in name
  {
  }

  lemma PrefixPlain(prefix: string)
    requires ValidPrefix(prefix)
    ensures prefix != "" && '/' !in prefix && ',' !in prefix && '~' !in prefix
  {
  }

  /** Patches reach the keys of every stored node. */
  lemma QualifiedPatchable(key: string)
    requires Qualified(key)
    ensures Patchable(key)
  {
    var parts := Cut(key, '/');
    if |parts| == 1 {
      NamePlain(key);
    } else {
      PrefixPlain(parts[0]);
      NamePlain(parts[1]);
    }
  }

  lemma HeadOfKey(ns: string, prefix: string, name: string)
    requires '/' !in ns && '/' !in prefix && ns + "/" <= prefix + "/" + name
    ensures ns == prefix && (prefix + "/" + name)[|ns| + 1..] == name
  {
    var key := prefix + "/" + name;
    CutAt(prefix, name, '/');
    assert key == ns + ['/'] + key[|ns| + 1..];
    CutAt(ns, key[|ns| + 1..], '/');
  }

  /** Tracking annotations can hold every key with a namespace. */
  lemma QualifiedTrackable(key: string, ns: string)
    requires Qualified(key) && '/' in key && '/' !in ns
    ensures Trackable(key, ns)
  {
    var parts := Cut(key, '/');
    PrefixPlain(parts[0]);
    NamePlain(parts[1]);
    if ns + "/" <= key {
      HeadOfKey(ns, parts[0], parts[1]);
    }
  }

  /** Keys that pass validation are qualified names with a namespace. */
  ghost predicate Validated(m: Items) {
    forall k :: k in m ==> Qualified(k) && '/' in k
  }

  lemma ValidatedItems(cfg: Config, m: Items)
    requires Validated(m) && '/' !in cfg.ns
    ensures ValidItems(cfg, m)
  {
    forall k | k in m ensures Patchable(k) && Trackable(k, cfg.ns) {
      QualifiedPatchable(k);
      QualifiedTrackable(k, cfg.ns);
    }
  }

  /** What the theorems on updates ask of the desired state follows from validation. */
  lemma ValidatedDesired(instance: string, allowOverwrite: bool, asInt: string -> string, d: Desired)
    requires ValidInstance(instance) && Validated(d.labels) && Validated(d.annotations) && Validated(d.resources)
    requires forall k :: k in d.annotations ==> AnnotationNsAllowed(Cut(k, '/')[0])
    ensures ValidDesired(MasterConfig(instance, allowOverwrite, asInt), d)
  {
    var cfg := MasterConfig(instance, allowOverwrite, asInt);
    NamespaceConstants();
    ValidatedItems(cfg, d.labels);
    ValidatedItems(cfg, d.annotations);
    ValidatedItems(cfg, d.resources);
    AllowedNotReserved(instance, allowOverwrite, asInt, d.annotations);
  }

  ghost predicate AllQualified(m: Items) {
    forall k :: k in m ==> Qualified(k)
  }

  /** And what they ask of a node follows from the API server accepting only qualified names. */
  lemma StoredValid(node: Node)
    requires AllQualified(node.labels) && AllQualified(node.annotations)
    requires AllQualified(node.capacity) && AllQualified(node.allocatable)
    ensures ValidNode(node)
  {
    forall k | Qualified(k) ensures Patchable(k) {
      QualifiedPatchable(k);
    }
  }
}
