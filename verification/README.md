# Node Feature Discovery: a verified model

A Dafny model of the parts of Node Feature Discovery where state, iteration order or failure make it hard
to see what the code guarantees, with proofs. `dafny verify dfyconfig.toml` checks all of it.

- **Node reconciliation.** `updateNodeObject` keeps no memory: what it owns is serialised into comma-joined
  annotations of the node it manages. `JsonPatch`, `Tracking`, `NodePatches`, `NodeUpdate` model path
  construction, the tracking annotations, the diffs and the two requests against a server that applies
  JSON patches by RFC 6902. `NodeRuns`, `NodeEdits`, `NodeHistory`, `NodeProgress`, `NodeRepeat`, `NodePrune` and
  `Instance` prove what holds over every run of updates interleaved with edits by others, that such runs
  get through, and what repeats, retries and pruning do.
- **Rule engine.** `MatchExpressions`, `RuleEngine` and `CustomRules`: loops over maps in arbitrary order,
  with early exits and flags carried between turns, refine one logical formula. `Operators` says what each
  operator and each small rule decides. `RuleChain` follows rule outputs fed back through a map stored by
  reference; `Namespacing` adds default namespaces.
- **Feature merging.** `FeatureSpecs`, `MergeOrder`, `FeatureMerge`: specs are maps below maps, each an
  object that could be shared; sorting and in-place merging give one result for every listing, made of new
  objects throughout, in which the last object in the order wins.
- **NUMA aggregation.** `NumaDevices`, `NumaZones`, `NumaMemory`, `NumaAccounting`, `NumaListing`,
  `NumaRequests`, `NumaCpus`, `NumaCapacity`: the device index agrees with the counters, and memory is taken
  from the listed zones in order and in full.
- **Update queue.** `UpdateQueue`: the handler and the workers as a state machine; an update asked for stays
  due until it is settled, but for one way of losing it, and none is made up.
- **Feature files and feature gates.** `FeatureFile`, `LineSyntax`, `FeatureGate`, `GateAnswers`: a directive
  parser against its declarative meaning, a printer and parser that undo each other after any calls, and
  what a gate answers.

`Strings`, `Sorting`, `GoPath` and `FeatureApi` hold what these share: the parts of Go's standard library
that the code leans on (`path.Join` with its cleaning, splitting, sorting, decimal integers) and the data
types. Iteration over a Go map is a loop that takes an arbitrary remaining key, so each method is proved
for every order. Where the code would panic the model returns `None` or `false`.

## Properties that hold only under a condition

- A patch path leads to its key only without `~`, and not for the names empty, `.` and `..`
  (`JsonPatch.ResolveNewJsonPatch`); a tracking annotation gives a key back only if it is trackable
  (`Tracking.TrackableExactly`). Qualified names meet both (`Instance.ValidatedDesired`,
  `Instance.StoredValid`), and the run theorems ask for that.
- With `AllowOverwrite` off the code also refuses to replace its own tracking annotations
  (`NodePrune.TrackingExactlyWhen` gives the exact condition, `NodePrune.LabelLeaks` the consequence,
  `NodePrune.SecondLabelLost` an input), and tracked labels and annotations keep the values they have
  (`NodeRuns.UpdatedValues`). The run theorems are for the default, on.
- A resource placed by an update whose metadata request failed, not tracked before and not desired by the
  next update, stays on the node (`NodeHistory.HalfDoneLeaksExactly`, `NodeHistory.LeakStays`,
  `NodePrune.ResourceLeft`).
- A retry after a half-done update reaches the same node except for the family in
  `NodeRepeat.RetryReaches`; `NodeRepeat.RetryDiffers` is a member of it.
- Adding default namespaces is deterministic exactly under the condition of `Namespacing.OrdersAgreeExactly`;
  `Namespacing.NamespacedAmbiguous` is an input off it.
- A worker tells only NotFound apart from other outcomes of reading a node. After any other read error it
  goes on with the empty node it was given, and if that needs no patch the name counts as done
  (`UpdateQueue.StepLosesExactly`, `UpdateQueue.ReadFailureLoses`).
- An excluded resource in the pod data makes `Aggregate` dereference a missing counter
  (`NumaAccounting.PanicsExactly`, `NumaAccounting.ExcludedGpuPanics`), a CPU listed by a device plugin without
  a NUMA node makes `getCPUs` panic (`NumaCpus.GetCPUs`), and a negative memory size raises an available
  amount (`NumaMemory.DrainLowersExactly`, `NumaMemory.NegativeRequestRaises`). The pod scanner prints sizes
  without a sign (pkg/resourcemonitor/podresourcesscanner.go:201), so a negative one reaches the aggregator
  only from another caller.
- Feeding back into a nil `rule.matched` map panics (`RuleChain.NilMatchedExactly` says when, before the
  call; `RuleChain.NilMatchedPanics` is an input).

## Code and comments

A comment in `updateMemoryAvailable` (pkg/resourcemonitor/noderesourcesaggregator.go:447-453) speaks of NUMA
nodes in ascending order; the code takes them in the order in which the request lists them, and so does the
model. The documentation of `Set` (pkg/utils/featuregate/featuregate.go:129-130) speaks of known keys; the
code also trims white space, skips empty parts and lets later pairs win, and so does the model.

## Model

| member | source | states |
|---|---|---|
| `JsonPatch.ResolveNewJsonPatch` | pkg/utils/jsonpatch.go:32-34 | For every verb, container, key and value: the path of the patch decodes (section 4 of RFC 6901) to that container and key if and only if the key is not empty, `.` or `..` and holds no `~`; `path.Join` cleaning and the missing `~0` escape are the two failing families |
| `JsonPatch.UnescapeEscape` | pkg/utils/jsonpatch.go:32-34 | Escaping only `/` is undone by RFC 6901 decoding if and only if the key holds no `~` |
| `JsonPatch.ApplyListed` | pkg/nfd-master/nfd-master.go:1137-1161 | A list of patches with pairwise distinct targets applies (sections 4.1 to 4.3 of RFC 6902, all or nothing) if and only if each operation fits the node it starts from, and then has the closed-form effect |
| `JsonPatch.ApplyShuffled` | pkg/nfd-master/nfd-master.go:1137-1161 | Every permutation of such a list has the same outcome, success or failure |
| `Tracking.StringToNsNames` | pkg/nfd-master/nfd-master.go:1309-1319 | The in-place rewrite of the split list computes the parsed names, with the empty string standing for no names |
| `Tracking.TrackingValueOrder` | pkg/nfd-master/nfd-master.go:1060-1069 | Whatever order the map yields its keys in, the printed annotation is the same |
| `Tracking.TrackingRoundTrip` | pkg/nfd-master/nfd-master.go:1290-1319 | Parsing a printed tracking annotation gives back every owned key exactly once and nothing else |
| `Tracking.TrackableExactly` | pkg/nfd-master/nfd-master.go:1290-1319 | A single key survives printing and parsing if and only if it is trackable: no comma, and a clean name after the default namespace or another namespace of its own |
| `Tracking.TrackingSorted` | pkg/nfd-master/nfd-master.go:1060-1069 | The names in a tracking annotation ascend, as dictionaries order them |
| `NodePatches.CreatePatches` | pkg/nfd-master/nfd-master.go:1137-1161 | For every iteration order the patches list, each once, exactly the operations of the diff: remove, replace (subject to the overwrite setting) and add |
| `NodePatches.CreatePatchesApply` | pkg/nfd-master/nfd-master.go:1137-1161 | For both overwrite settings, in any order, and on a node that has changed elsewhere since it was read, the patches apply without failure and give one closed-form map |
| `NodePatches.CreateResourcePatches` | pkg/nfd-master/nfd-master.go:1165-1198 | The status patches are the removals of stale tracked resources, in both status maps and in tracked order, followed by exactly the needed additions and replacements, each once |
| `NodePatches.RemovalsApply` | pkg/nfd-master/nfd-master.go:1171-1180 | The removals apply if and only if no name is listed twice and each is in capacity and in allocatable; then exactly those keys are dropped from both |
| `NodeUpdate.ApiServer.Patch` | pkg/nfd-master/nfd-master.go:1435-1444 | A request with no patches succeeds without effect; otherwise it is applied as a whole or not at all |
| `NodeUpdate.ApiServer.PatchStatus` | pkg/nfd-master/nfd-master.go:1446-1448 | The same on the status, with the server filling in the allocatable amount of a resource that the patch added to the capacity |
| `NodeUpdate.TrackingList` | pkg/nfd-master/nfd-master.go:1060-1091 | Collecting, sorting and joining the keys of a map gives its tracking value in every iteration order |
| `NodeUpdate.MetaPatches` | pkg/nfd-master/nfd-master.go:1093-1105 | The label and annotation patches together list each operation of both diffs exactly once, reserved annotations included |
| `NodeUpdate.UpdateStatus` | pkg/nfd-master/nfd-master.go:1107-1112 | The status request succeeds exactly when it is idle or fits and reaches the server; the stored node changes only then |
| `NodeUpdate.UpdateNodeObject` | pkg/nfd-master/nfd-master.go:1056-1118 | For every reading of the node, stale or not, and every failure of either request: result and stored node are those of the specification, status first, metadata second, nothing undone |
| `NodeRuns.MetaEffect` | pkg/nfd-master/nfd-master.go:1093-1118 | The metadata patch fits and has its closed-form effect on every stored node that agrees with the reading on the keys concerned |
| `NodeRuns.UpdateSteps` | pkg/nfd-master/nfd-master.go:1056-1118 | Without outages an update fails if and only if its status patch does not fit; otherwise its result has a closed form |
| `NodeRuns.UpdatedMeta` | pkg/nfd-master/nfd-master.go:1056-1118 | With overwriting on: labels and annotations afterwards are the previous ones without the owned keys, plus the wanted ones; `UpdatedValues` says item by item what those are |
| `NodeRuns.UpdatedValues` | pkg/nfd-master/nfd-master.go:1056-1161 | Item by item, for both overwrite settings, after every successful update: a desired label or annotation has its desired value, unless overwriting is off and it was on the node and tracked, when it keeps its old one; a tracked item that is not desired is gone, and so are the old version annotations; every other item is as before |
| `NodeRuns.UpdatedTracks` | pkg/nfd-master/nfd-master.go:1056-1105 | With overwriting on: all three tracking annotations read back as exactly the desired keys |
| `NodeRuns.StatusCapacity` | pkg/nfd-master/nfd-master.go:1165-1198 | Capacity per key, exactly: a wanted resource has its wanted value, or keeps one that reads as the wanted integer; any other is there with its old amount if and only if it was there and not tracked |
| `NodeRuns.StatusAllocatable` | pkg/nfd-master/nfd-master.go:1165-1198 | Allocatable per key, exactly: set where the capacity is set, except that an amount without a capacity is kept; dropped where the capacity is dropped; otherwise unchanged |
| `NodeEdits.UpdateCommutes` | pkg/nfd-master/nfd-master.go:1056-1118 | An update that finds the node edited by others since it was read, off the keys it is about, ends exactly as if the edit had come after it, whatever requests fail |
| `NodeHistory.RunKeepsInv` | pkg/nfd-master/nfd-master.go:1056-1161 | Over every run of updates, with outages of either request and edits by others between reading and requests, and of foreign edits: labels, annotations, capacity and allocatable outside what the master placed are those of the world without it, less what was ever owned, and what the node records as owned is within that |
| `NodeHistory.RunReconciles` | pkg/nfd-master/nfd-master.go:1056-1161 | Main theorem, for every state of every run, whatever requests failed and whatever others edited between a reading and its requests: the tracking annotations decode to exactly the keys of the last successful update; each label and annotation that update desired has its desired value, each other one that was ever owned is gone, and all the rest have the value of the world without the master; each resource of the last update whose status request got through is met, and outside these and the leaked ones capacity and (if tracked amounts had a capacity at the start) allocatable are those of the world minus every key ever owned |
| `NodeHistory.ResourcesReconciledExactly` | pkg/nfd-master/nfd-master.go:1107-1118 | The capacity is the world without owned keys plus what is desired if and only if nothing has leaked |
| `NodeHistory.HalfDoneLeaksExactly` | pkg/nfd-master/nfd-master.go:1107-1118 | After an update whose metadata request failed, the next one leaves behind exactly the resources that only the first desired and that were not tracked before it, and they are on the node |
| `NodeHistory.LeakStays` | pkg/nfd-master/nfd-master.go:1165-1180 | A leaked resource stays in the capacity over every run in which no update desires it |
| `NodeHistory.NoLeaks` | pkg/nfd-master/nfd-master.go:1107-1118 | No run without metadata outages leaks a resource |
| `NodeHistory.RunKeepsValid` | pkg/nfd-master/nfd-master.go:1056-1161 | Every node of every run, half-done updates included, is one that the next update can be called on |
| `NodeProgress.UpdateGoesThrough` | pkg/nfd-master/nfd-master.go:1107-1118 | On a node whose capacities all have allocatable amounts and whose tracking annotation lists no resource twice, every update succeeds |
| `NodeProgress.UpdateStaysOpen` | pkg/nfd-master/nfd-master.go:1107-1118 | An update leaves a node of that kind, wherever it stops |
| `NodeProgress.FairRunsGoThrough` | pkg/nfd-master/nfd-master.go:1056-1161 | After every run from such a node, outages and half-done updates included, in which edits by others keep an allocatable amount for every capacity, an update without outage succeeds |
| `NodeRepeat.SecondUpdateQuiet` | pkg/nfd-master/nfd-master.go:1093-1105 | A second update with the same desired state has no label or annotation patch |
| `NodeRepeat.RetryStatusQuiet` | pkg/nfd-master/nfd-master.go:1165-1198 | After the status patch went through, a retry with canonical integer values sends no status patch |
| `NodeRepeat.RetrySucceeds` | pkg/nfd-master/nfd-master.go:1107-1118 | When the status patch went through and the metadata patch failed, the retry succeeds with the labels, annotations and capacity of an uninterrupted update |
| `NodeRepeat.RetryReaches` | pkg/nfd-master/nfd-master.go:1107-1118 | The retry ends in exactly the node of an uninterrupted update if and only if no resource with an allocatable amount of its own but no capacity is desired with a non-canonical value |
| `NodeRepeat.RetryDiffers` | pkg/nfd-master/nfd-master.go:1107-1118 | A failing input: allocatable "1", no capacity, desired "1k" |
| `NodePrune.PruneNode` | pkg/nfd-master/nfd-master.go:461-496 | Empty update, re-read, removal of the annotations with the instance prefix, store; each failure leaves what was reached before it; after success no annotation with the prefix is left and every other one keeps its value |
| `NodePrune.RunThenPrune` | pkg/nfd-master/nfd-master.go:461-496 | After any run and a prune labels and annotations are the world without the master, less every key ever owned and every annotation with the instance prefix; so are capacity and allocatable outside the leaked resources, and the capacity altogether if and only if nothing leaked |
| `NodePrune.ResourceLeft` | pkg/nfd-master/nfd-master.go:1107-1118 | A failing input: an update that places one resource on an empty node and stops, then an update that desires nothing: the resource is still there |
| `NodePrune.DesiredIsOwned` | pkg/nfd-master/nfd-master.go:1056-1161 | Every key that a successful update of a run desired, and every key tracked at its start, counts as owned at its end, so `RunThenPrune` removes it |
| `NodePrune.WorldUntouched` | pkg/nfd-master/nfd-master.go:1056-1161 | A label no one else edits has its original value in the world column |
| `NodePrune.OthersSurvive` | pkg/nfd-master/nfd-master.go:461-496 | A label never desired, not tracked at the start and not edited by others is the same after any run and a prune |
| `NodePrune.TrackingExactlyWhen` | pkg/nfd-master/nfd-master.go:1149-1154 | For both settings and each of the three tracking annotations: it names exactly what is desired afterwards if and only if overwriting is on, there was no such annotation, nothing is desired, or it named that already |
| `NodePrune.LabelLeaks` | pkg/nfd-master/nfd-master.go:1149-1154 | With overwriting off, a label added under a kept tracking annotation that does not name it survives an empty update |
| `NodePrune.SecondLabelLost` | pkg/nfd-master/nfd-master.go:1149-1154 | A failing input: one label on the node and tracked, two desired |
| `Instance.MasterConfigValid` | pkg/nfd-master/nfd-master.go:1337-1342 | For every permitted instance name the annotation keys are distinct, patchable and start with the instance prefix, as the theorems on updates ask |
| `Instance.TrackingKeys` | api/nfd/v1alpha1/annotations_labels.go:48-51 | The keys under which labels and resources are recorded, spelled out, for the plain master and for every instance |
| `Instance.AnnotationKeys` | api/nfd/v1alpha1/annotations_labels.go:63-64 | The same for annotations and for the prefix that pruning removes |
| `Instance.VersionKeys` | api/nfd/v1alpha1/annotations_labels.go:53-58 | The same for the version annotations that an update cleans up |
| `Instance.AllowedNotReserved` | pkg/apis/nfd/validate/validate.go:138-154 | An annotation that passes the namespace rule never collides with a tracking annotation of any instance |
| `Instance.QualifiedPatchable` | pkg/utils/jsonpatch.go:32-34 | A patch path leads back to every qualified name |
| `Instance.QualifiedTrackable` | pkg/nfd-master/nfd-master.go:1290-1319 | A tracking annotation gives back every qualified name with a namespace |
| `Instance.ValidatedDesired` | pkg/apis/nfd/validate/validate.go:96-246 | What the theorems on updates ask of the desired state follows from validation, for every instance |
| `Instance.StoredValid` | pkg/nfd-master/nfd-master.go:1137-1161 | What they ask of a node follows from all its keys being qualified names |
| `MatchExpressions.MatchGetValues` | pkg/apis/nfd/nodefeaturerule/expression.go:327-350 | For every iteration order, failing fast or not: a verdict is the conjunction over the expressions, whose answers the module `Operators` determines; an error has a cause, and without failing fast every error is found |
| `MatchExpressions.MatchGetInstances` | pkg/apis/nfd/nodefeaturerule/expression.go:365-387 | A verdict is that some instance satisfies all expressions, and the matched elements are exactly the satisfying instances in order |
| `MatchExpressions.ThoseElement` | pkg/apis/nfd/nodefeaturerule/expression.go:365-387 | Those are the instances of the list that satisfy everything |
| `MatchExpressions.ThoseConcat` | pkg/apis/nfd/nodefeaturerule/expression.go:365-387 | And they keep the order of the list |
| `MatchExpressions.MatchUnion` | pkg/apis/nfd/nodefeaturerule/expression.go:399-467 | The loop with its flags, early exits and continues decides the union of flags and attributes, DoesNotExist needing absence from both |
| `MatchExpressions.MatchMulti` | pkg/apis/nfd/nodefeaturerule/expression.go:395-482 | A verdict is the union match or one instance satisfying everything, in every iteration order and both modes |
| `MatchExpressions.MatchNames` | pkg/apis/nfd/nodefeaturerule/expression.go:205-269 | The result is an error if and only if some name errs, otherwise whether some name matches |
| `MatchExpressions.MatchInstanceNames` | pkg/apis/nfd/nodefeaturerule/expression.go:273-284 | The same over the attribute names of all instances |
| `MatchExpressions.MatchNamesMulti` | pkg/apis/nfd/nodefeaturerule/expression.go:488-535 | The same over flags, attributes and all instances together |
| `Operators.InDecides` | pkg/apis/nfd/nodefeaturerule/expression.go:80-88 | `In` with one value holds exactly at that value, with two lists of values where it holds with one of them, and errs without values |
| `Operators.NotInDecides` | pkg/apis/nfd/nodefeaturerule/expression.go:89-98 | `NotIn` is the negation of `In` on every present input, and errs where `In` does |
| `Operators.RegexpDecides` | pkg/apis/nfd/nodefeaturerule/expression.go:99-115 | `InRegexp` with one pattern holds where that matches, with two lists where it holds with one of them; it errs without patterns and on a pattern that does not compile |
| `Operators.CompareDecides` | pkg/apis/nfd/nodefeaturerule/expression.go:116-132 | `Gt` and `Lt` on the printed forms of any two 64-bit integers compare the integers |
| `Operators.BetweenDecides` | pkg/apis/nfd/nodefeaturerule/expression.go:133-151 | `GtLt` is `Gt` the first and `Lt` the second bound, and errs where one of these does or the bounds are not in order |
| `Operators.TruthDecides` | pkg/apis/nfd/nodefeaturerule/expression.go:152-161 | `IsTrue` and `IsFalse` are `In` with the one word |
| `Operators.PresenceDecides` | pkg/apis/nfd/nodefeaturerule/expression.go:59-75 | `Exists` holds exactly when the name is present, `DoesNotExist` exactly when it is not, `Any` always; on flags and on attributes |
| `Operators.AbsentFails` | pkg/apis/nfd/nodefeaturerule/expression.go:77-167 | The operators on values are false on an absent name and on a flag, and on a present attribute they decide by its value |
| `Operators.ValueRule` | pkg/apis/nfd/nodefeaturerule/rule.go:234-311 | A rule with one operator on values, on any features: it matches if and only if the attribute, or that attribute of some instance, is there and its value satisfies the operator; the feature is looked up in lower case |
| `Operators.InRule` | pkg/apis/nfd/nodefeaturerule/rule.go:71-149 | On a node with one attribute of one feature, a rule `In [w]` matches if and only if the value is `w`, and `NotIn [w]` if and only if it is not |
| `Operators.GtRule` | pkg/apis/nfd/nodefeaturerule/rule.go:71-149 | The same with numbers: the rules `Gt` and `Lt` match if and only if the number is greater, or less |
| `Operators.ExistsRule` | pkg/apis/nfd/nodefeaturerule/rule.go:234-311 | A rule on presence matches if and only if the name is among the flags, the attributes or those of some instance |
| `Operators.DoesNotExistRule` | pkg/apis/nfd/nodefeaturerule/rule.go:234-311 | A rule on absence matches if and only if the name is in neither flags nor attributes and one of these is given, or some instance lacks it |
| `Operators.NameRule` | pkg/apis/nfd/nodefeaturerule/rule.go:267-309 | A rule that asks for a name by `matchName` matches exactly where a rule on its presence does |
| `Operators.FeatureRule` | pkg/apis/nfd/nodefeaturerule/rule.go:234-266 | A rule without expressions matches if and only if there is anything under the feature, looked up in lower case |
| `Operators.TermParts` | pkg/apis/nfd/nodefeaturerule/rule.go:267-309 | A term with expressions and a name expression asks for both |
| `Operators.ExpressionsConjoin` | pkg/apis/nfd/nodefeaturerule/expression.go:327-350 | More expressions on one set of attributes are a conjunction |
| `Operators.TermsConjoin` | pkg/apis/nfd/nodefeaturerule/rule.go:234-311 | More terms are a conjunction, and one element of matchAny is as good as its terms under matchFeatures |
| `Operators.ElementsDisjoin` | pkg/apis/nfd/nodefeaturerule/rule.go:80-115 | More elements of matchAny are a disjunction |
| `RuleEngine.EvaluateTerm` | pkg/apis/nfd/nodefeaturerule/rule.go:267-309 | One term, exactly, for both values of the flag carried over from the term before, which a term without expressions does not reset |
| `RuleEngine.EvaluateFeatureMatcher` | pkg/apis/nfd/nodefeaturerule/rule.go:234-311 | In spite of the carried flag a verdict is the conjunction over the terms; an error has a cause |
| `RuleEngine.ExecuteMatchers` | pkg/apis/nfd/nodefeaturerule/rule.go:71-149 | The verdict of `Execute` is that of its control flow under some admissible outcomes, and is the logical formula of the rule, whose parts the module `Operators` determines |
| `RuleEngine.ExecuteGroupRule` | pkg/apis/nfd/nodefeaturerule/rule.go:153-184 | The same for group rules |
| `RuleEngine.ExecuteOutcome` | pkg/apis/nfd/nodefeaturerule/rule.go:71-149 | Under every choice of iteration orders a verdict equals (matchAny empty or some element matches) and every matchFeatures term matches |
| `RuleEngine.VerdictDetermined` | pkg/apis/nfd/nodefeaturerule/rule.go:71-149 | A rule whose expressions all evaluate without error has one verdict: failing fast or not, in every order, as rule or as group rule |
| `RuleEngine.GroupAgrees` | pkg/apis/nfd/nodefeaturerule/rule.go:153-184 | Failing fast and under the same choices, group rule and rule agree on verdict and on error |
| `CustomRules.ValidatedEval` | source/custom/api/expression.go:50-96 | A validated expression errs if and only if a numeric operator meets a present input that is not an integer |
| `CustomRules.ValidateExactly` | source/custom/api/expression.go:50-96 | Validation accepts an expression if and only if it cannot err on any input that suits its operator |
| `CustomRules.ConvertTerm` | source/custom/api/conversion.go:24-50 | The copying loop keeps feature name, expressions and name expression; nil stays nil |
| `CustomRules.ConvertMatcher` | source/custom/api/conversion.go:53-66 | Terms are converted one by one, in order, each keeping feature, names, operators and values |
| `CustomRules.ConvertRule` | source/custom/api/conversion.go:82-111 | The converted rule has the same name, labels and vars and as many matchers and terms, each with the feature, names, operators and values of the one at its position |
| `CustomRules.ConvertedRuleExecutes` | source/custom/api/conversion.go:82-111 | Any converted rule of validated non-numeric expressions executes without error on every feature set, with the logical verdict |
| `Namespacing.AddNsToMapKeys` | pkg/nfd-master/nfd-master.go:1274-1287 | Prefixed keys are kept, unprefixed ones are lifted into the namespace unless the prefixed form is given as well, and nothing else is in the result |
| `Namespacing.NamespacedAt` | pkg/nfd-master/nfd-master.go:1274-1287 | On plain keys, per key: the result holds the prefixed form if given, else the unprefixed one |
| `Namespacing.AddNsInOrder` | pkg/nfd-master/nfd-master.go:1274-1287 | The loop computes the result for the order in which the map yields its keys |
| `Namespacing.NamespacedOrders` | pkg/nfd-master/nfd-master.go:1274-1287 | A map is as specified if and only if it is the result of the loop for some order of the keys |
| `Namespacing.OrdersAgreeExactly` | pkg/nfd-master/nfd-master.go:1274-1287 | The loop gives one result for all orders if and only if no two unprefixed keys with different values come to stand for one prefixed key |
| `Namespacing.NamespacedExactly` | pkg/nfd-master/nfd-master.go:1274-1287 | The same of the maps that are as specified |
| `Namespacing.StandsPlain` | pkg/nfd-master/nfd-master.go:1274-1287 | On plain keys, what a key of the result stands for can be read off the key |
| `Namespacing.PlainDeterminate` | pkg/nfd-master/nfd-master.go:1274-1287 | Plain keys meet that condition |
| `Namespacing.NamespacedAmbiguous` | pkg/nfd-master/nfd-master.go:1274-1287 | The keys `""` and `"."` do not: two results are possible |
| `RuleChain.FeatureStore.InsertAttributeFeatures` | api/nfd/v1alpha1/feature.go:70-81 | An absent feature takes the given map object itself, not a copy; a present one is extended in place; other features keep their maps; it panics if and only if something is copied into a nil map |
| `RuleChain.Execute` | pkg/apis/nfd/nodefeaturerule/rule.go:71-149 | Output maps are new objects filled from the rule, given exactly on a match |
| `RuleChain.Feedback` | pkg/nfd-master/nfd-master.go:1042-1043 | The two insertions leave the old content overridden by labels and then vars, although the second may write into the label map itself; only the back-reference feature changes; a nil map stays nil or panics |
| `RuleChain.RunRule` | pkg/nfd-master/nfd-master.go:1021-1043 | One turn of the loop: what the rule published, what it fed back, that a failed rule changes nothing, and exactly when it panics |
| `RuleChain.ProcessRules` | pkg/nfd-master/nfd-master.go:1012-1045 | In every chain, rule i sees the initial content overridden in order by labels then vars of the earlier rules that did not fail; published labels are made of labels alone; no cached rule object changes; it panics if and only if a rule has something to feed back into a nil map |
| `RuleChain.NilMatchedExactly` | pkg/nfd-master/nfd-master.go:1012-1045 | Where the back-reference feature has a nil map and no rule errs on the features given, the loop goes through if and only if no rule that matches them has labels or vars |
| `RuleChain.NilMatchedPanics` | pkg/nfd-master/nfd-master.go:1012-1045 | A failing input: a nil map and one rule that always matches, with one label |
| `RuleChain.ChainStep` | pkg/nfd-master/nfd-master.go:1012-1045 | One more output takes the content seen by rule i to that seen by rule i + 1 |
| `FeatureSpecs.ElementTable.MergeElements` | api/nfd/v1alpha1/feature.go:132-149 | One set of flags or attributes: the map of the target is written in place, or made if it is nil; every other map keeps its content, the given one included, even if it is a map of the target; a nil one changes nothing |
| `FeatureSpecs.ElementTable.MergeInto` | api/nfd/v1alpha1/feature.go:99-117 | For every iteration order the table of the target holds the merge; its maps are old ones of its own or new; the receiver keeps its content, also where both tables have the same map for a feature |
| `FeatureSpecs.InstanceTable.MergeInstances` | api/nfd/v1alpha1/feature.go:152-161 | Copies of the instances are appended, each with a new map |
| `FeatureSpecs.NodeFeatureSpec.MergeInto` | api/nfd/v1alpha1/feature.go:85-129 | The target holds the merge of both; its objects are its old ones or new, none of the receiver; the receiver, its maps and their content are unchanged |
| `FeatureSpecs.NodeFeatureSpec.DeepCopy` | api/nfd/v1alpha1/zz_generated.deepcopy.go:625-646 | An equal spec made of new objects throughout |
| `FeatureSpecs.SpecValue.MergedFeatures` | api/nfd/v1alpha1/feature.go:98-161 | What the maps hold after a merge is the merge of the feature values: flags united, attributes overridden, instances appended |
| `MergeOrder.BeforeTotal` | pkg/nfd-master/nfd-master.go:667-681 | The comparator is asymmetric, and two objects are tied if and only if namespace and name agree |
| `MergeOrder.BeforeTransitive` | pkg/nfd-master/nfd-master.go:667-681 | The comparator is transitive |
| `MergeOrder.OrderedFollows` | pkg/nfd-master/nfd-master.go:667-681 | Objects of the master's own namespace come before all others; on each side names do not descend, nor do namespaces of one name. The order of strings is that of dictionaries: a proper prefix is smaller, otherwise the first character that differs decides |
| `MergeOrder.OrderedElement` | pkg/nfd-master/nfd-master.go:654-659 | Exactly the objects of selected namespaces are merged |
| `MergeOrder.OrderedPermutation` | pkg/nfd-master/nfd-master.go:654-681 | However the lister orders the objects, they are merged in one order |
| `Strings.LessMeans` | pkg/nfd-master/nfd-master.go:675-680 | Comparing strings with `<` is the order of dictionaries |
| `FeatureMerge.MergeOrdered` | pkg/nfd-master/nfd-master.go:683-713 | The loop builds, out of new objects only, the merge of what the objects bring |
| `FeatureMerge.GetAndMerge` | pkg/nfd-master/nfd-master.go:641-720 | Nothing when no object is selected; otherwise the merge of exactly the selected objects, own namespace first and then by name and namespace, every object and map of it new, and every listed spec with its maps and their content unchanged |
| `FeatureMerge.FlagsUnion` | api/nfd/v1alpha1/feature.go:132-139 | A flag is in the merge if and only if some object has it |
| `FeatureMerge.AttributeLastWins` | api/nfd/v1alpha1/feature.go:142-149 | An attribute has the value of the last object that has it, and is absent if none has |
| `FeatureMerge.InstancesConcat` | api/nfd/v1alpha1/feature.go:152-161 | Instances are the concatenation in merge order |
| `FeatureMerge.LabelLastWins` | pkg/nfd-master/nfd-master.go:683-713 | With or without automatic prefixes, a label has the value of the last object that gives it, whichever name that object used, and is absent if none gives it |
| `FeatureMerge.AttributeWinner` | pkg/nfd-master/nfd-master.go:667-713 | An attribute of the merge is that of the one selected object with it that follows all others with it in the merge order |
| `FeatureMerge.LabelWinner` | pkg/nfd-master/nfd-master.go:667-725 | So is a label; where labels of third parties are denied, only the object of this node in the master's namespace gives any |
| `FeatureMerge.ForeignAttributeWins` | pkg/nfd-master/nfd-master.go:667-713 | If an object outside the master's namespace has an attribute, the merge takes it from such an object, never from one of the own namespace |
| `FeatureMerge.ForeignLabelWins` | pkg/nfd-master/nfd-master.go:667-713 | The same of labels |
| `FeatureMerge.MergeDetermined` | pkg/nfd-master/nfd-master.go:683-713 | For given objects in merge order there is one result, whatever the map iteration orders |
| `FeatureMerge.ListingIrrelevant` | pkg/nfd-master/nfd-master.go:641-720 | Two permutations of the same listing give the same features and labels |
| `NumaDevices.MakeNodeAllocatable` | pkg/resourcemonitor/noderesourcesaggregator.go:271-312 | A counter exists exactly for listed (zone, resource) pairs and holds the number of devices plus the memory listed there |
| `NumaDevices.MakeResourceMap` | pkg/resourcemonitor/noderesourcesaggregator.go:328-345 | The index knows exactly the listed devices, each by the last node of the last entry that lists it with nodes |
| `NumaZones.MakeZone` | pkg/resourcemonitor/noderesourcesaggregator.go:108-156 | The counters a zone starts with, for every iteration order, excluded resources left out |
| `NumaZones.ZoneTable.UpdateAvailable` | pkg/resourcemonitor/noderesourcesaggregator.go:241-261 | One device after another is taken from the counter of its zone; the method fails exactly where a counter is missing |
| `NumaZones.ZoneTable.UpdateMemoryAvailable` | pkg/resourcemonitor/noderesourcesaggregator.go:410-466 | The loop drains the listed zones as the specification does, malformed requests ignored; `NumaRequests` says what that takes from which zone |
| `NumaZones.Aggregate` | pkg/resourcemonitor/noderesourcesaggregator.go:106-169 | The counters after all containers, or the panic; `NumaListing` and `NumaRequests` say what they are |
| `NumaMemory.DrainConserves` | pkg/resourcemonitor/noderesourcesaggregator.go:427-461 | The drop over all zones plus the unsatisfied remainder equals the request, whatever its sign |
| `NumaMemory.DrainBounds` | pkg/resourcemonitor/noderesourcesaggregator.go:427-461 | A non-negative request only lowers amounts, never below zero, and leaves a remainder between zero and the request |
| `NumaMemory.DrainInOrder` | pkg/resourcemonitor/noderesourcesaggregator.go:427-461 | A listed zone is reduced only if every known zone listed before it is empty |
| `NumaMemory.DrainExhausts` | pkg/resourcemonitor/noderesourcesaggregator.go:427-461 | Something stays unsatisfied only if the listed zones are empty, up to one that has no such memory at all |
| `NumaMemory.DrainLowersExactly` | pkg/resourcemonitor/noderesourcesaggregator.go:421-461 | No amount is raised if and only if the request is non-negative or reaches no zone with memory left: negative sizes are not rejected |
| `NumaMemory.NegativeRequestRaises` | pkg/resourcemonitor/noderesourcesaggregator.go:421-461 | A failing input: a request of -1 on a zone with 5 left leaves 6 |
| `NumaAccounting.CounterThere` | pkg/resourcemonitor/noderesourcesaggregator.go:108-169 | For an indexed device of a known zone the counter is there if and only if the resource is not excluded |
| `NumaAccounting.PanicsExactly` | pkg/resourcemonitor/noderesourcesaggregator.go:241-261 | For every pod data: a missing counter is dereferenced if and only if some container holds an indexed device of an excluded resource in a known zone |
| `NumaAccounting.ExcludedGpuPanics` | pkg/resourcemonitor/noderesourcesaggregator.go:241-261 | A failing input: one excluded GPU in zone 0, held by one container |
| `NumaAccounting.AvailableCounts` | pkg/resourcemonitor/noderesourcesaggregator.go:158-169 | Over every sequence of entries, available is the initial amount less the allocated devices indexed to the zone |
| `NumaAccounting.HitsBound` | pkg/resourcemonitor/noderesourcesaggregator.go:271-345 | Index and counters agree in size: distinct device IDs cannot hit a zone more often than it has devices |
| `NumaAccounting.ReportedAvailable` | pkg/resourcemonitor/noderesourcesaggregator.go:106-200 | Each reported non-memory counter is allocatable less the allocated devices indexed to the zone, and not negative when no device ID is handed out twice |
| `NumaAccounting.MemoryBounds` | pkg/resourcemonitor/noderesourcesaggregator.go:410-466 | Over every sequence of entries with non-negative requests each zone keeps 0 <= available <= the amount at the start |
| `NumaAccounting.ReportedMemory` | pkg/resourcemonitor/noderesourcesaggregator.go:106-200 | Each reported memory counter keeps 0 <= available <= allocatable, and allocatable is the listed amount |
| `NumaListing.LastNodeIs` | pkg/resourcemonitor/noderesourcesaggregator.go:328-345 | A device is indexed to the node listed last in the entry that lists it last |
| `NumaListing.DevicesCounted` | pkg/resourcemonitor/noderesourcesaggregator.go:271-285 | With one node for each device, the counter of a zone is the number of distinct devices that list it |
| `NumaListing.FreeDevices` | pkg/resourcemonitor/noderesourcesaggregator.go:106-200 | Then a zone reports as allocatable the number of its devices and as available the number of those that no container holds |
| `NumaListing.MemoryAddsUp` | pkg/resourcemonitor/noderesourcesaggregator.go:287-309 | A memory block counts with its size on each node of its topology and not at all without one; listings add up |
| `NumaListing.ReportedCapacity` | pkg/resourcemonitor/noderesourcesaggregator.go:116-145 | After any pod data: capacity of memory is what the system has, where known, and otherwise the allocatable amount, as for devices |
| `NumaListing.BareZone` | pkg/resourcemonitor/noderesourcesaggregator.go:146-155 | A zone with nothing allocatable reports its reserved CPUs as capacity and nothing else |
| `NumaRequests.EntryTakes` | pkg/resourcemonitor/noderesourcesaggregator.go:410-466 | A well-formed non-negative request lowers the total over all zones by exactly its size, or by all that the distinct listed zones hold if that is less (zones listed after one without such memory do not count, as the code gives up there); zones that are not listed stay as they are; every other entry takes nothing of this kind |
| `NumaRequests.EntryInOrder` | pkg/resourcemonitor/noderesourcesaggregator.go:447-461 | A listed zone drops only if the zones of the topology listed before it end up empty |
| `NumaRequests.EntryLowersExactly` | pkg/resourcemonitor/noderesourcesaggregator.go:421-461 | An entry raises no amount if and only if its size is not negative or it reaches no zone with memory left |
| `NumaRequests.EntriesTake` | pkg/resourcemonitor/noderesourcesaggregator.go:158-169 | Over all entries the drops add up |
| `NumaRequests.PinnedLeaves` | pkg/resourcemonitor/noderesourcesaggregator.go:447-461 | With containers pinned to one zone each, every zone is left with what it had less the sum of what was requested of it, or with nothing |
| `NumaRequests.ReportedTotal` | pkg/resourcemonitor/noderesourcesaggregator.go:106-200 | The reported amounts of a kind of memory add up to the allocatable ones less what the containers took |
| `NumaCpus.MakeLogicalCoreIDToNodeIDMap` | pkg/resourcemonitor/noderesourcesaggregator.go:314-324 | Exactly the processors of the topology are mapped, each to the last node that holds it |
| `NumaCpus.LastHolderIs` | pkg/resourcemonitor/noderesourcesaggregator.go:314-324 | That is the last node of the topology that lists the processor |
| `NumaCpus.CpusPerNuma` | pkg/resourcemonitor/noderesourcesaggregator.go:211-222 | Each node gets the printed IDs of its allocatable CPUs in order; nodes without any get no entry |
| `NumaCpus.CpuDevices` | pkg/resourcemonitor/noderesourcesaggregator.go:224-234 | The CPU device entries hold each node's CPUs once, in every iteration order |
| `NumaCpus.GetCPUs` | pkg/resourcemonitor/noderesourcesaggregator.go:396-406 | The printed IDs listed for cpu; it panics if and only if a listed CPU has no NUMA node |
| `NumaCpus.MakeReservedCPUMap` | pkg/resourcemonitor/noderesourcesaggregator.go:373-406 | A node's reserved CPUs are its processors whose printed ID is not listed for cpu; the panic is passed on |
| `NumaCpus.NewResourcesAggregator` | pkg/resourcemonitor/noderesourcesaggregator.go:93-103 | Index, counters and reserved CPUs are built from the same listing; it panics if and only if a device plugin lists a CPU without a NUMA node |
| `NumaCapacity.CpusAddUp` | pkg/resourcemonitor/noderesourcesaggregator.go:205-237 | Allocatable plus reserved CPUs of a zone are its logical processors |
| `NumaCapacity.CpuCapacity` | pkg/resourcemonitor/noderesourcesaggregator.go:116-155 | Whenever a zone reports a cpu entry, after any pod data, its capacity is the number of logical processors of that NUMA node |
| `UpdateQueue.NextInv` | pkg/nfd-master/updater-pool.go:50-76 | Every step keeps the queue contract: the names worked on are the processing ones, each once |
| `UpdateQueue.OneWorkerPerNode` | pkg/nfd-master/updater-pool.go:50-76 | In every run no name is taken by a second worker while one is still at it |
| `UpdateQueue.StepKeepsPending` | pkg/nfd-master/nfd-master.go:378-430 | Every step keeps a pending name pending, settles it, or drops it at a failed read |
| `UpdateQueue.StepLosesExactly` | pkg/nfd-master/updater-pool.go:62-74 | A pending name is lost if and only if reading its node fails, for another reason than NotFound and without an error from the update that follows, and nothing else makes it due |
| `UpdateQueue.NoLostWork` | pkg/nfd-master/nfd-master.go:378-430 | In every interleaving an update asked for by name, by an update-all event, or by start-up for every node, stays pending until, in an attempt begun after that, the update succeeds, the node is absent (also from the list of all nodes), or reading the node fails |
| `UpdateQueue.IdleMeansSettled` | pkg/nfd-master/nfd-master.go:378-430 | When everything is at rest and reads of a node returned it or NotFound, every update asked for, by name, for all nodes or at start-up, has been settled by a later attempt |
| `UpdateQueue.NoMadeUpWork` | pkg/nfd-master/nfd-master.go:378-430 | In every run whatever is queued, delayed or worked on was named before: it arrived, or the lister returned it; and all nodes are due only since start-up or an update-all event after which they were not listed |
| `UpdateQueue.ReadFailureLoses` | pkg/nfd-master/updater-pool.go:62-74 | A run that comes to rest with a name received, never updated and never found absent, because reading its node failed |
| `UpdateQueue.UpdaterPool.AddNode` | pkg/nfd-master/updater-pool.go:186-190 | The name is due afterwards and the queue contract holds |
| `UpdateQueue.UpdaterPool.ProcessNodeUpdateRequest` | pkg/nfd-master/updater-pool.go:50-76 | The taken name awaits retry exactly when its update failed and is dropped otherwise, also after an unsuccessful read; every other name waits as before; without a name it returns only after shutdown |
| `UpdateQueue.RequestIsSteps` | pkg/nfd-master/updater-pool.go:50-76 | That method is the three steps of a worker in the state machine |
| `FeatureFile.ParseLines` | source/local/local.go:181-243 | The line loop leaves in each map exactly the keys whose last unexpired entry is not marked by a directive since the unexpired entry before it, with the value of that line |
| `FeatureFile.ParseFeatureFile` | source/local/local.go:181-243 | The same for a file of raw lines |
| `FeatureFile.LeavesUnique` | source/local/local.go:181-243 | That description pins the map down |
| `LineSyntax.PaddedLine` | source/local/local.go:193-195 | White space around a line does not count |
| `LineSyntax.EntryLine` | source/local/local.go:210-243 | A line `k=v` that is no comment is an entry, split at the first equals sign |
| `LineSyntax.FlagLine` | source/local/local.go:233-243 | A line without equals sign is an entry for `true` |
| `LineSyntax.CommentLine` | source/local/local.go:150-153 | A comment that is no directive says nothing |
| `LineSyntax.SkipLines` | source/local/local.go:170-173 | What the two directives without a value are |
| `LineSyntax.ExpiryLine` | source/local/local.go:160-169 | The expiry directive takes the time after the equals sign, and changes nothing if that is none |
| `LineSyntax.NoLabelBefore` | source/local/local.go:210-228 | `# +no-label` right before the deciding line of a key: the key is no label, and it is a feature with the value of that line unless `no-feature` stands before it too |
| `LineSyntax.NoFeatureBefore` | source/local/local.go:210-228 | The same with features and labels exchanged |
| `LineSyntax.TwoLines` | source/local/local.go:181-243 | A file of `# +no-label` and `k=v` leaves `k` with value `v` among the features and not among the labels |
| `FeatureGate.Gate.SetFromMap` | pkg/utils/featuregate/featuregate.go:153-191 | In every iteration order: accepted if and only if every setting is known and respects its lock, then merged; a rejected call changes nothing |
| `FeatureGate.ParseSettings` | pkg/utils/featuregate/featuregate.go:132-148 | The loop over the parts computes the parsed settings, or the first error |
| `FeatureGate.Gate.Set` | pkg/utils/featuregate/featuregate.go:131-150 | The text is parsed pair by pair, later ones winning; malformed text changes nothing |
| `FeatureGate.Gate.OverrideDefault` | pkg/utils/featuregate/featuregate.go:234-264 | Only the default of a known unlocked feature of an open gate changes; a failed call changes nothing |
| `FeatureGate.Gate.String` | pkg/utils/featuregate/featuregate.go:194-201 | The printed text is the same in every iteration order |
| `FeatureGate.PrintedSorted` | pkg/utils/featuregate/featuregate.go:194-201 | The printed pairs ascend |
| `FeatureGate.RunInv` | pkg/utils/featuregate/featuregate.go:131-285 | Every sequence of calls keeps enabled names known and printable, and locked features at their spec |
| `FeatureGate.LockedStay` | pkg/utils/featuregate/featuregate.go:276-285 | After every sequence of calls exactly the known features answer, and locked ones answer with their default |
| `FeatureGate.PrintedParses` | pkg/utils/featuregate/featuregate.go:194-201 | Printed settings parse back to themselves |
| `FeatureGate.GateRoundTrip` | pkg/utils/featuregate/featuregate.go:131-201 | After any calls and for any feature names, feeding the text of a gate to a fresh gate with the same features is accepted and rebuilds its settings |
| `GateAnswers.CollectLast` | pkg/utils/featuregate/featuregate.go:131-150 | A text with a malformed pair is refused as a whole; otherwise the last pair for a feature counts |
| `GateAnswers.AnswerIsLast` | pkg/utils/featuregate/featuregate.go:131-299 | After any calls a known feature answers with its last accepted setting; without one, with its last override accepted before a flag was added; without one, with the default given |

## Left out

- Templates: `labelsTemplate` and `varsTemplate`, the matched elements that feed them (kept only for instances) and the match status reports.
- Rule outputs other than labels and vars (annotations, extended resources, taints): they are copied the same way and are not fed back.
- Taints: `setTaints` rests on Kubernetes helpers that are not part of this model.
- Label, annotation and resource filtering (`filterFeatureLabels` and its kin): per-item checks; their result is the desired state here.
- Kubernetes clients, informers, leader election, metrics, logging: a node is four string maps, a listing an arbitrary sequence, and each request may fail. Within a run, others may edit the node between a reading and the requests made from it, but not the keys that the update is about; edits between the two requests of one update are not modelled.
- JSON bytes: patches are records, so the omission of empty values in the encoding and the existence of the parent maps are not modelled.
- Regular expressions, RFC 3339 times and the reading of a quantity as an integer are parameters (`Regexps`, `Clock`, `asInt`).
- `strings.ToLower` and `strings.TrimSpace` are modelled on ASCII.
- Memory sizes are unbounded integers: overflow of 64-bit sums is not modelled.
- The allocatable amount that the server derives from added capacity is taken to equal it when there was none.
- Go slices are sequences: that appending could write into a backing array shared with another slice is not modelled. A nil attribute map of an instance is taken as an empty one.
- Containers and pods are flattened into one list of entries, cores into the processors of their node; zone names and costs are not modelled.
- Events that the controller drops before the handler receives them, and the queue of NodeFeatureGroups, which has the shape of the node queue.
- Retry counts and delays: a failed name is delayed and some later step releases it.
- Feature gates before the first `Add` or with a second one, and `SetFromMap` called directly by other code in a sequence of calls.
- Nil and empty are told apart for feature maps but not for label maps or for the outer maps of a feature set.
- RuleChain.ProcessRules: asks that no two features of a node share a map and that no cached rule has the map that the chain writes to; the given features are a private copy in the source.
- FeatureSpecs.NodeFeatureSpec.MergeInto: asks that receiver and target have no object in common and that no map of the target is in two places, as after a deep copy; otherwise a write to the target could be a write to the receiver.
- FeatureSpecs.ElementTable.MergeInto: asks that a map that both tables have is the map of the same feature in both; otherwise merging one feature changes what another one of the receiver holds, and the iteration order shows.
- FeatureMerge.GetAndMerge: asks that `repr` of each listed spec covers its objects, which is bookkeeping for the proof and demands nothing of the specs.
- FeatureMerge.LabelLastWins: asks, with automatic prefixes on, that no object gives one label two values by two odd names (`Namespacing.OrdersAgreeExactly`); otherwise the iteration order decides.
- FeatureMerge.LabelWinner: asks the same.
- FeatureMerge.ForeignLabelWins: asks the same.
- NumaListing.FreeDevices: asks that each device of the resource has one node and is listed once, and that none is handed out twice; `NumaAccounting.ReportedAvailable` has no such condition and counts entries instead of devices.
- NumaRequests.EntryTakes: asks that amounts and sizes are not negative; `NumaRequests.EntryLowersExactly` is about negative sizes.
- FeatureMerge.ListingIrrelevant: asks that no two objects share namespace and name, as in a cluster, and the same of label names.
- NodeHistory.RunReconciles: the claim on allocatable amounts asks that at the start every tracked resource with an allocatable amount has a capacity.
- NodeUpdate.UpdateNodeObject: asks for node and desired keys that are valid names, which the API server and the validation of rule outputs ensure.
