# Deterministic engines of the Kristin tool suite, modelled in Dafny

The repository decides what an automated agent may do with a set of small deterministic engines. This
project models the ones with the most logic in them and proves what each is for, over every input, every
run or every reachable state. Each operation is a function that follows the code branch by branch; where
the code works by loops or by updating objects there is also a method or class that does the same and is
proved equal to the function.

| Modules | What they model |
|---|---|
| `Paths`, `PathLaws` | string-level path normalisation, down to the components of `posixpath.normpath`, and the prefix test; the laws by which a path of components resolves |
| `PolicyScope`, `PolicyEngine` | prefix, name, lease and host lists with their intersections; one policy evaluation from request to grant draft |
| `OverlayFold`, `PolicyTheorems`, `PolicyOrder`, `PolicyCeiling` | what folding any list of overlays computes; monotonicity, order independence and ceiling safety of an evaluation, for any normaliser |
| `PolicyDecision`, `PolicyEffect` | what an evaluation answers, written out over the raw request: the rule behind each reason code, when approval is needed, the effective scope and budgets, and which requests are evaluated at all |
| `PolicyGuarantees` | the same three guarantees for the real normaliser, under conditions on the paths, leases and destinations that the request's profile and overlays read |
| `PolicyProbes`, `PolicyExactness`, `PathSamples` | why those conditions are exact: for each path, lease or destination that breaks one, an evaluation that reads nothing else and relaxes, climbs or depends on the order; sample paths for each case |
| `PolicyEvaluation` | the loops of `evaluate_policy` |
| `ContextCompactor`, `ContextLaws`, `ContextTrimming`, `ContextCompaction`, `ContextHangs` | history compaction: normalised summaries, fingerprints and serialised length; deduplication, selection, the trimming loop with its exact halting condition, and histories that never finish |
| `ModelRouter`, `RoutePolicy`, `CircuitBreaker`, `SemanticProgress`, `Convergence` | the other parts of execution intelligence |
| `DartLiteral`, `DartReader`, `DartRoundTrip` | the Dart literal printer, a reader for its literals (strings as in section 16.5 of ECMA-408) and the round trip |
| `FormatBatches` | greedy batching of file names |
| `AuditChain` | the hash chain of audit records |
| `CapabilityGrant`, `GrantRuns`, `GrantAnswers` | signed grants, the grant-use ledger over every run, and the answer to each call clause by clause |
| `BrowserPlan` | the browser-plan automaton |
| `ExtensionRegistry`, `RegistryRules`, `RegistryRuns` | the extension registry, when each command is accepted, and every run of commands |
| `SourceManifest`, `ManifestRoundTrip` | the source manifest parser and printer |
| `Text`, `Sorting`, `Wrappers` | strings, sorted sets, the stable sort and results |

## What the proofs found

- A relative path that leads back to its own start, such as `.` or `a/..`, normalises to `/`, the root of the file
  system, and no other relative path without a drive does (`BackToStartIsRoot`). A path is refused exactly when it
  is relative, to nothing or to a drive, and climbs above its start at some point (`RefusedIffClimbs`).
- Normalising a path is idempotent exactly when the normal form has no outer whitespace and a drive-like
  start of it is lower case and delimited (`NormalizeIdempotentIff`). The engine normalises stored prefixes
  again on every use, so what counts is the second form of a root: an accepted path is tidy when its
  second form exists and is its own normal form.
- An overlay can turn a refused input into a denial. Under every root a read of a target that cannot be
  normalised is refused, and denied once an overlay leaves no prefix to test it against
  (`TargetRefusalLost`). Where the paths are tidy no other refusal is lost: the theorems on overlays allow
  `TargetDropped` and nothing else.
- Overlays never relax the requests that draw on a set of paths, leases and targets, refusals included, exactly
  when every path of the set is tidy, no lease names `*`, and no refused target meets a path that can be a
  root (`NeverRelaxesIff`). For any other path some overlays that name it widen the scope of a command, or turn
  a refusal into a grant; where the third form is accepted they also turn a denied read into a grant
  (`ReadRelaxes`). For a lease `*` an overlay lets a lease be used that the base does not list. `a /` is tidy,
  `a / /` is not, and the second form of `./ ..` is refused (`TidySamples`).
- For a set of paths that holds the normal form of each of them, the order of the overlays never decides a
  request exactly when its paths are tidy and no lease names `*` (`OrderNeverDecidesIff`).
- Requests over a set of paths, leases and destinations stay under their profile's ceiling, widenings included,
  exactly when the paths are tidy, no lease names `*` and no destination of the set is a nested wildcard such as
  `*.*.example` (`StaysUnderIff`).
- Intersecting pattern lists without nested wildcards admits exactly the hosts both lists admit if and only if
  it keeps each listed pattern that the other list admits (`MeetExactOnHostsIff`): `*.example` and
  `api.example` intersect to nothing.
- The trimming loop of the compactor halts exactly when the high-value entries, with every summary cut as
  far as the loop can cut it, fit the limit, or none of them is longer than 160 characters
  (`WrittenLoopHaltsIff`). A 161-character summary is a fixed point of the cut. A history of distinct
  high-value entries with longer summaries therefore hangs as soon as it has more than one for each 161
  characters of the limit (`LongHistoriesHang`), such as thirteen errors whose summaries differ in one letter
  at the smallest limit (`WrittenLoopHangs`). With the guard at 161 or more the loop always halts
  (`RepairedLoopHalts`).
- A version with a suffix counts as higher than the same version without one (`VersionOrder`), so an update from a
  release to its pre-release is accepted.
- Six decisions plus the starting repairs are enough for every stalled run exactly when a step without progress
  is counted already, a repair is left or the user may not be asked (`SixSufficeIff`). The defaults of the
  command start a run that needs a seventh (`SixDecisionsCanFallShort`).
- An update that keeps the capabilities clears a review that is still pending, and enabling then needs no
  approval. This is the only step that does so (`ReviewKeptIff`), and along a run unapproved capabilities can be
  enabled without approval exactly when the run has such an update (`ReviewSkippedIff`).

## Model

| member | source | states |
|---|---|---|
| Paths.NormalizeIdempotentIff | tool/deterministic_policy_engine.py:82-96 | normalising an accepted path again gives the same path if and only if its normal form is trimmed and any drive-like start is lower case and delimited |
| Paths.NormalizedHasNoTraversal | tool/deterministic_policy_engine.py:82-96 | no "." or ".." component survives in an accepted path's normal form |
| PathLaws.ParentCancels | tool/deterministic_policy_engine.py:82-96 | a plain component and the ".." after it cancel anywhere in a path, rooted or not, with or without a drive |
| PathLaws.EmptyVanishes | tool/deterministic_policy_engine.py:82-96 | an empty component or a "." anywhere in a path changes nothing |
| PathLaws.RootHasNoParent | tool/deterministic_policy_engine.py:82-96 | a ".." at the start of a rooted path is dropped |
| PathLaws.ManySlashes | tool/deterministic_policy_engine.py:82-96 | three and more leading slashes count as one |
| PathLaws.PlainStays | tool/deterministic_policy_engine.py:82-96 | a path of plain components keeps them all, after its lower-case drive and one or two slashes |
| PathLaws.RootStays | tool/deterministic_policy_engine.py:82-96 | what is only slashes becomes "/", or its drive |
| PathLaws.RefusedIffClimbs | tool/deterministic_policy_engine.py:82-96 | a path is refused if and only if no slash starts it, after a drive or not, and its ".." outnumber the plain components before them at some point |
| PathLaws.BackToStartIsRoot | tool/deterministic_policy_engine.py:82-96 | a relative path without a drive becomes "/" if and only if it never climbs and leads back to its start |
| PathLaws.DriveRelative | tool/deterministic_policy_engine.py:82-96 | a path on a drive without a slash is the path from the drive's root, unless it climbs and is refused |
| PathLaws.DriveCase | tool/deterministic_policy_engine.py:87-88 | the case of the drive letter does not matter |
| PathLaws.BackslashIsSlash | tool/deterministic_policy_engine.py:83 | a backslash counts as a slash in every path |
| PathLaws.OuterSpaceDropped | tool/deterministic_policy_engine.py:83 | whitespace around a path does not count |
| Paths.WithinTransitive | tool/deterministic_policy_engine.py:99-104 | containment between normalised paths composes |
| Paths.WithinComparable | tool/deterministic_policy_engine.py:99-104 | two prefixes of one path are comparable, so prefixes form a forest |
| Paths.WithinAntisymmetric | tool/deterministic_policy_engine.py:99-104 | mutual containment is equality |
| PolicyScope.PathIntersection | tool/deterministic_policy_engine.py:130-138 | the double loop yields exactly the specified sorted set, and refuses exactly when a prefix it meets does not normalise |
| PolicyScope.PathMeetExact | tool/deterministic_policy_engine.py:130-138 | on prefixes whose normal forms settle the intersection admits a path iff both lists admit it and holds exactly the normal forms of either list that the other admits, each its own normal form |
| PolicyScope.SelfMeetExactIff | tool/deterministic_policy_engine.py:130-138 | intersecting a prefix with itself changes nothing it admits iff its normal form is settled |
| PolicyScope.AnyWithinMeaning | tool/deterministic_policy_engine.py:362-366 | the short-circuit test of a target against a list is membership under some prefix, the target being normalised only when the list is not empty |
| PolicyScope.MeetIsMeet | tool/deterministic_policy_engine.py:120-127 | the name intersection is the meet of what two lists name, with "*" as top |
| PolicyScope.LeaseCeilingIff | tool/deterministic_policy_engine.py:120-127 | no constraint adds a lease to a base list iff the base list lacks the literal "*" |
| PolicyScope.MeetNarrowsHosts | tool/deterministic_policy_engine.py:107-127 | intersecting pattern lists never admits a host either list refuses |
| PolicyScope.MeetExactOnHostsIff | tool/deterministic_policy_engine.py:107-127 | without nested wildcards the intersection admits exactly the hosts both lists admit iff it admits each listed pattern, read as a host, that the other list admits |
| PolicyScope.RestoredHostStaysUnder | tool/deterministic_policy_engine.py:343-347 | a restored host, read back as the pattern it is stored as, admits nothing a base without nested wildcards refuses |
| PolicyScope.NestedWildcardEscapes | tool/deterministic_policy_engine.py:107-117 | for every nested wildcard pattern there is a restored host that admits more than the pattern |
| PolicyScope.HostCeilingIff | tool/deterministic_policy_engine.py:107-117 | restoring stays under a base pattern for every host iff the pattern is not a nested wildcard |
| OverlayFold.FoldReads | tool/deterministic_policy_engine.py:289-314 | folding overlays one by one equals reading them all and folding the results: refusal does not depend on where a bad overlay stands |
| OverlayFold.FoldPaths | tool/deterministic_policy_engine.py:295-300 | where normal forms settle a path is admitted after the fold iff the base and every overlay admit it |
| OverlayFold.FoldPathMembers | tool/deterministic_policy_engine.py:130-138 | once an overlay constrains paths the folded list holds exactly the normal forms of listed prefixes, of base or overlays, that lie within all lists; until then it is the base list |
| OverlayFold.FoldNames | tool/deterministic_policy_engine.py:301-306 | destinations, browser profiles and leases fold to the meet of all lists up to "*" |
| OverlayFold.FoldBudgets | tool/deterministic_policy_engine.py:307-312 | each folded budget is the least of the start and every valid overlay limit |
| OverlayFold.FoldBudgetKeys | tool/deterministic_policy_engine.py:307-312 | the budget fields never change, and an invalid limit is reported iff some overlay has one |
| OverlayFold.FoldDenials | tool/deterministic_policy_engine.py:295-298 | denied capabilities, tools and forced denial are the unions over all overlays |
| OverlayFold.FoldPolicy | tool/deterministic_policy_engine.py:141-144 | the folded approval level is the strictest of the profile's and every overlay's |
| OverlayFold.FoldSucceeds | tool/deterministic_policy_engine.py:289-314 | where normal forms settle a fold is refused iff some compared approval level is unknown |
| PolicyTheorems.MoreOverlaysNarrow | tool/deterministic_policy_engine.py:289-314 | adding overlays at any position narrows every scope list and budget and only adds denials |
| PolicyTheorems.EffectReasonsGrow | tool/deterministic_policy_engine.py:359-404 | a narrower scope gives every reason a wider one gives, and loses a refusal only for a refused target when it has no prefix and the wider one has |
| PolicyTheorems.ConcludeMonotone | tool/deterministic_policy_engine.py:316-450 | a narrower folded state concludes at least as strictly, refusals included, after the same approved widening; only a refused target can be denied instead, with no prefix left |
| PolicyTheorems.AddingOverlaysNeverRelaxes | tool/deterministic_policy_engine.py:236-450 | for any normaliser, more overlays at any layer and position never relax the evaluation: refusal, status, reasons, scope and budgets; only a refused target can be denied instead, with no prefix left under a base that has one |
| PolicyOrder.OverlayOrderIrrelevant | tool/deterministic_policy_engine.py:289-314 | any two arrangements of the same overlays give the same status, reason codes, budgets and scope |
| PolicyOrder.LayerSortIrrelevant | tool/deterministic_policy_engine.py:229-233 | the layer sort does not affect the verdict |
| PolicyOrder.SamePathList | tool/deterministic_policy_engine.py:130-138 | once an overlay constrains paths the final prefix list itself is the same for every order |
| PolicyCeiling.InOrderUnderCeiling | tool/deterministic_policy_engine.py:289-450 | ceiling safety of an evaluation in any overlay order |
| PolicyCeiling.NothingExceedsTheCeiling | tool/deterministic_policy_engine.py:236-450 | for any normaliser, every effective path, host, browser profile, lease and budget stays inside the profile's, and a grant draft implies the base scope admits the target |
| PolicyCeiling.DenyingOverlayWins | tool/deterministic_policy_engine.py:316-321 | an overlay that denies the capability, the tool or everything decides, whatever is approved or widened |
| PolicyDecision.DecisionExact | tool/deterministic_policy_engine.py:258-417 | an accepted evaluation is denied iff some written-out rule is broken, with exactly the codes of the broken rules; otherwise it waits for approval iff the strictest level asked for is "always", or "high_risk_only" with a high risk, and no identified approval of the owner or an organization policy is given; otherwise it allows |
| PolicyDecision.GrantExact | tool/deterministic_policy_engine.py:419-450 | a grant is drafted iff the effect is allowed, for the stripped identities with the run and task as they came, and carries the effective scope and budgets and the effect |
| PolicyEffect.BudgetsExact | tool/deterministic_policy_engine.py:279-312 | every effective budget is the least of the profile's, the requested one with 0 for a negative one, and every valid overlay limit |
| PolicyEffect.NamesExact | tool/deterministic_policy_engine.py:289-357 | the effective scope names a destination or browser profile iff the base and every overlay do, lower-cased for hosts, or an approved widening restores it from the base |
| PolicyEffect.LeasesExact | tool/deterministic_policy_engine.py:289-357 | with no lease "*" in the base the effective leases are exactly those the base and every overlay name and the restored ones |
| PolicyEffect.PathsExact | tool/deterministic_policy_engine.py:289-357 | where normal forms settle the effective scope admits a path iff the base and every overlay do, or an approved widening restores a path of the base that covers it |
| PolicyEffect.BaseExact | tool/deterministic_policy_engine.py:147-202 | when the ceiling of a profile can be read, and exactly what its path, destination, browser and lease lists hold for each scope name |
| PolicyEffect.EvaluatedIff | tool/deterministic_policy_engine.py:236-450 | where normal forms settle a request is evaluated iff its binding, profile sections, budgets, overlays and approved widening can be read and a path target that does not normalise is compared with no path |
| PolicyGuarantees.OverlaysNeverRelax | tool/deterministic_policy_engine.py:236-450 | where the roots the profile reads and the overlay paths are tidy and no lease it reads names "*", adding overlays never relaxes `evaluate_policy`, and loses no refusal but that of a refused target |
| PolicyGuarantees.OrderNeverMatters | tool/deterministic_policy_engine.py:229-314 | for such requests every overlay order, sorted or not, gives the verdict of `evaluate_policy` |
| PolicyGuarantees.CeilingHolds | tool/deterministic_policy_engine.py:147-450 | for such requests without a nested wildcard among the destinations the profile reads nothing granted exceeds the profile's ceiling, also after an approved widening |
| Paths.NextFormIsOutside | tool/deterministic_policy_engine.py:82-104 | a path never contains a normal form of it that differs from it |
| PolicyExactness.ReadRelaxes | tool/deterministic_policy_engine.py:236-450 | for every root whose third form is accepted and another than its second, a read is denied, and allowed once an overlay names the root |
| PolicyExactness.RunRelaxes | tool/deterministic_policy_engine.py:236-450 | for every root whose second or third form is refused, two overlays that name it are refused, and an empty path list before them lets a command through |
| PolicyExactness.UntidyRelaxes | tool/deterministic_policy_engine.py:236-450 | every untidy path has a command that reads no other path and no target and that added overlays relax |
| PolicyExactness.TargetRefusalLost | tool/deterministic_policy_engine.py:362-366 | under every root a read of a target that cannot be normalised is refused, and denied once an overlay empties the prefixes |
| PolicyExactness.UntidyClimbs | tool/deterministic_policy_engine.py:147-450 | every untidy path has a request that reads no other path and whose effective scope is not under its base |
| PolicyExactness.StarRelaxes | tool/deterministic_policy_engine.py:305-306 | with a lease named "*" an overlay lets a lease be used that was denied |
| PolicyExactness.NestedClimbs | tool/deterministic_policy_engine.py:343-347 | every nested wildcard destination has an approved widening whose scope admits a host the base refuses |
| PolicyExactness.NeverRelaxesIff | tool/deterministic_policy_engine.py:236-450 | overlays never relax the requests over a set of paths, leases and targets, refusals included, if and only if the paths are tidy, no lease names "*" and no refused target meets a path that can be a root |
| PolicyExactness.StaysUnderIff | tool/deterministic_policy_engine.py:147-450 | the evaluations over a set of paths, leases and destinations stay under their ceiling if and only if the paths are tidy, no lease names "*" and no destination is a nested wildcard |
| PolicyExactness.OrderCanMatter | tool/deterministic_policy_engine.py:289-314 | where the second or third form of a path is refused, overlays that name it give another verdict in another order |
| PolicyExactness.FormOrderMatters | tool/deterministic_policy_engine.py:289-314 | where the third form is another than the second, so do an overlay that names the path and one that names its stored form |
| PolicyExactness.StarOrderMatters | tool/deterministic_policy_engine.py:120-127 | with a lease named "*", so do two overlays that both list "*" |
| PolicyExactness.OrderNeverDecidesIff | tool/deterministic_policy_engine.py:229-314 | over a set of paths closed under normalising and a set of leases, no order of the overlays changes a verdict if and only if the paths are tidy and no lease names "*" |
| PathSamples.OddNormalForms | tool/deterministic_policy_engine.py:82-96 | a path that needs three rounds of normalising |
| PathSamples.OddPrefixRelaxes | tool/deterministic_policy_engine.py:130-138 | intersecting that path's stored form with itself admits a path it refused |
| PathSamples.OddOverlayRelaxes | tool/deterministic_policy_engine.py:236-450 | the whole evaluation for that path: denied, and allowed once an overlay is added |
| PathSamples.TidySamples | tool/deterministic_policy_engine.py:82-96 | a root that settles at its second form, one that settles later and one whose second form is refused |
| PathSamples.GuaranteesApply | tool/deterministic_policy_engine.py:236-450 | the conditions are met by a concrete allowed request and an overlay to add to it |
| PolicyEvaluation.LimitBudgets | tool/deterministic_policy_engine.py:307-312 | the loop over one overlay's limits takes the lesser of each valid limit and reports an unknown field or a bad limit |
| PolicyEvaluation.NarrowByOverlays | tool/deterministic_policy_engine.py:289-314 | the overlay loop computes the fold, refusals included |
| PolicyEvaluation.RestorePathLoop | tool/deterministic_policy_engine.py:337-342 | the loop adds exactly the restored paths inside the base scope and notes the others |
| PolicyEvaluation.RestoreHostLoop | tool/deterministic_policy_engine.py:343-347 | the loop adds exactly the restored hosts the base allows, lower-cased, and notes the others |
| PolicyEvaluation.WidenScope | tool/deterministic_policy_engine.py:328-357 | the scope changes only by an approved request, and only by what the base scope lists |
| PolicyEvaluation.EvaluatePolicy | tool/deterministic_policy_engine.py:236-450 | the imperative evaluation, loops and all, returns the decision that `DecisionExact`, `GrantExact` and the lemmas of `PolicyEffect` write out |
| ContextCompactor.DeduplicatedSpec | tool/execution_intelligence.py:1127-1140 | deduplication keeps first occurrences with pairwise distinct fingerprints and forgets no fingerprint |
| ContextLaws.NormalisedSummary | tool/execution_intelligence.py:1106-1116 | normalising changes the summary only: its words joined by single blanks, cut at 2000 characters |
| ContextLaws.FingerprintIgnores | tool/execution_intelligence.py:1132-1133 | two entries are fingerprinted alike iff they agree on everything but identity, timestamp and turn |
| ContextLaws.SizeIsLength | tool/execution_intelligence.py:1155 | the size compared with the limit is the length of the serialised list, with its summaries escaped as JSON texts |
| ContextLaws.RoundDropsLow | tool/execution_intelligence.py:1156-1174 | a round drops the first low-value entry if there is one |
| ContextLaws.RoundDropsHead | tool/execution_intelligence.py:1164-1169 | with none, and no summary longer than the guard, it drops the first entry |
| ContextLaws.RoundCutsLongest | tool/execution_intelligence.py:1164-1172 | otherwise it cuts the first longest summary to half, 160 characters at least, and an ellipsis |
| ContextLaws.OldestFirst | tool/execution_intelligence.py:1155-1174 | after any number of rounds the low-value entries that remain are the last of the selected ones |
| ContextTrimming.CutOfShortest | tool/execution_intelligence.py:1168-1172 | the cut of a 161-character summary has 161 characters and is a fixed point of the cut |
| ContextTrimming.CutLeadsToLimit | tool/execution_intelligence.py:1164-1172 | every cut stays on the way to one limit list, which is reached when the longest summary has 161 characters |
| ContextTrimming.LimitIsSmaller | tool/execution_intelligence.py:1155-1172 | the limit list serialises no longer than the list |
| ContextTrimming.StallsForever | tool/execution_intelligence.py:1155-1174 | high-value entries whose limit does not fit keep the written loop over the limit after any number of rounds |
| ContextTrimming.WrittenLoopHaltsIff | tool/execution_intelligence.py:1155-1174 | the loop as written halts iff its high-value part fits once cut as far as it can be, or holds no summary above 160 characters |
| ContextTrimming.RepairedLoopHalts | tool/execution_intelligence.py:1155-1174 | with any guard of at least 161 the loop halts on every list, by entry count and total summary length |
| ContextCompaction.Trim | tool/execution_intelligence.py:1155-1174 | the loop ends exactly under the halting condition, then within the limit; its result is reached by rounds each of which started over the limit, changes nothing but summaries, keeps the order and touches no high-value entry while a low-value one remains |
| ContextCompaction.DerivedOrigin | tool/execution_intelligence.py:1155-1174 | each remaining entry comes from a selected one that differs at most in a shortened summary |
| ContextCompaction.DerivedDistinct | tool/execution_intelligence.py:1155-1174 | trimming keeps fingerprints distinct |
| ContextCompaction.SelectedSpec | tool/execution_intelligence.py:1142-1153 | the selection is exactly the entries of a high-value kind and the last `recent` ones, by timestamp, turn and identity, without repeats |
| ContextCompaction.DropDuplicates | tool/execution_intelligence.py:1127-1140 | the loop computes the deduplication, and kept plus duplicates equals the input count |
| ContextCompaction.Compact | tool/execution_intelligence.py:1088-1186 | the whole compaction: accounting, distinct fingerprints, first occurrences with only summaries shortened, priority of high-value entries, and the limit when it ends |
| ContextHangs.LongSummariesHang | tool/execution_intelligence.py:1155-1174 | the loop never ends on high-value entries with summaries over 160 characters whose number times 161 exceeds the limit |
| ContextHangs.LongHistoriesHang | tool/execution_intelligence.py:1118-1174 | compaction never ends on any history of high-value entries, distinct by their fingerprints, with summaries over 160 characters and more than one entry for each 161 characters of the limit |
| ContextHangs.WrittenLoopHangs | tool/execution_intelligence.py:1106-1174 | for a collision-free digest a concrete history of thirteen distinct errors never ends at the smallest limit, for any number of recent entries |
| ModelRouter.RouteCandidates | tool/execution_intelligence.py:422-526 | the loop and sorts compute the routing decision |
| ModelRouter.RoutePartitions | tool/execution_intelligence.py:422-526 | with the clauses of `RouteExact`, every candidate lands in exactly one of eligible, with its score row, and rejected, with its reasons; approval is flagged iff some candidate is rejected for lacking a fallback approval |
| RoutePolicy.RouteExact | tool/execution_intelligence.py:422-526 | a candidate is eligible iff it meets the eleven clauses written out over its fields, every other is rejected with exactly the codes of the clauses it breaks, something is selected iff some candidate meets them all, and approval is flagged iff a candidate needs a fallback approval that is not given |
| RoutePolicy.RowsInOrder | tool/execution_intelligence.py:500-502 | eligible rows come by falling score and then identity with the selected candidate first, rejected rows by identity |
| RoutePolicy.ScoreExact | tool/execution_intelligence.py:476-486 | what the benchmark, tool use, place among the preferred models, locality, latency and cost are worth to the score of a candidate without recorded health |
| RoutePolicy.HealthCosts | tool/execution_intelligence.py:476-486 | recorded health costs eight for each failure in a row, 30 at most, and 15 when half open |
| ModelRouter.SelectedIsBest | tool/execution_intelligence.py:500-526 | the choice is an eligible candidate no eligible candidate beats by score, then identity; there is none iff none is eligible |
| ModelRouter.ChoiceSurvives | tool/execution_intelligence.py:422-526 | removing candidates or changing policy so that nothing new is eligible and the choice stays eligible keeps the choice |
| ModelRouter.OrderIrrelevant | tool/execution_intelligence.py:422-526 | with distinct identities the candidate order does not affect the choice |
| ModelRouter.TighterAddsReasons | tool/execution_intelligence.py:422-500 | a tighter policy keeps every rejection reason |
| ModelRouter.TighteningKeepsChoice | tool/execution_intelligence.py:422-526 | tightening the policy while the choice stays eligible never changes it |
| ModelRouter.ChoiceObeysPolicy | tool/execution_intelligence.py:422-500 | the choice meets every clause of the policy |
| ModelRouter.ScoreRespectsMerit | tool/execution_intelligence.py:476-486 | a candidate as good in everything the score looks at scores no less, and more with a better benchmark or tool score |
| ModelRouter.DominatedIsNotChosen | tool/execution_intelligence.py:422-526 | a candidate an eligible rival dominates is never chosen |
| ModelRouter.ScoreSpread | tool/execution_intelligence.py:476-486 | bonuses and penalties are capped, so the score stays within fixed distances of the benchmark's points |
| CircuitBreaker.BreakerRefinesHistory | tool/execution_intelligence.py:212-278 | from fresh health the stored state is a function of the outcome history: open iff the trailing failures reach the threshold, half-open never stored, counters and times exact, blocked iff open within the cooldown of the last failure |
| CircuitBreaker.OneOutcome | tool/execution_intelligence.py:233-278 | on any stored health a success closes the circuit; a failure opens it iff it is one too many in a row or the circuit was half open, and then blocks requests for the breaker's cooldown |
| CircuitBreaker.CooldownReopens | tool/execution_intelligence.py:233-245 | once the cooldown has passed a request is always permitted |
| SemanticProgress.DeltaAccounts | tool/execution_intelligence.py:625-657 | new, removed and kept artifacts, errors and criteria account exactly for the change between snapshots |
| SemanticProgress.DeltaExact | tool/execution_intelligence.py:625-657 | each list holds, in order, what one snapshot has and the other lacks; plan revision, repeated action, repeated result and progress as the fingerprints and lists say |
| SemanticProgress.ChangesInOrder | tool/execution_intelligence.py:630-638 | changed artifacts come in path order |
| SemanticProgress.ReasonsExact | tool/execution_intelligence.py:658-680 | a reason is reported iff what it says holds of the delta |
| SemanticProgress.NoProgressIffRetreats | tool/execution_intelligence.py:658-714 | no progress is reported iff the second snapshot only retreats from the first |
| SemanticProgress.NoProgressOverRuns | tool/execution_intelligence.py:625-714 | if no step of a run reports progress then neither does comparing its ends |
| SemanticProgress.ProgressHasAStep | tool/execution_intelligence.py:625-714 | progress between the ends of a run is witnessed by one of its steps |
| SemanticProgress.NoProgressBothWays | tool/execution_intelligence.py:625-714 | no progress in either direction means the snapshots agree |
| Convergence.LowestOpenStage | tool/execution_intelligence.py:743-866 | progress continues; otherwise the decision takes the lowest open stage and the action of that stage, asks the user exactly for asking or offering a model, and never widens permissions |
| Convergence.StageNeverFalls | tool/execution_intelligence.py:743-866 | on a stalled run the escalation stage never falls |
| Convergence.StalledRunEnds | tool/execution_intelligence.py:743-866 | a stalled run from any counts reaches a final action within its budget of what is missing to six plus the repairs |
| Convergence.SixSufficeIff | tool/execution_intelligence.py:743-866 | every stalled run from a point reaches a final action within six decisions plus its repairs iff a step without progress is counted, a repair is left or asking is not allowed |
| Convergence.SixDecisionsCanFallShort | tool/execution_intelligence.py:743-866 | a run from the default counts whose first six decisions are not final |
| Convergence.FinalStays | tool/execution_intelligence.py:743-866 | a final decision is repeated for the rest of the run |
| Convergence.ApprovalFollowsAction | tool/execution_intelligence.py:743-866 | user approval is required exactly for asking the user and offering a stronger model, the stronger model is retried only once approved, and a retry is chosen only with repairs left |
| DartRoundTrip.ChainIsOnePass | tool/generate_protocol_contracts.py:146-157 | a chain of replaces whose texts avoid later patterns equals one per-character pass |
| DartRoundTrip.StringRoundTrip | tool/generate_protocol_contracts.py:146-157 | a printed string reads back as the string before any delimiter |
| DartRoundTrip.BodyRoundTrip | tool/dart_string_literal.py:13-23 | the body the shared helper returns reads back up to a closing quote |
| DartRoundTrip.StringIsOneLine | tool/generate_protocol_contracts.py:146-157 | a printed string holds no line break of any kind |
| DartRoundTrip.IntRoundTrip | tool/generate_protocol_contracts.py:160-170 | a printed integer reads back before a delimiter |
| DartRoundTrip.LiteralRoundTrip | tool/generate_protocol_contracts.py:160-186 | every nested value, printed at any indentation before a delimiter, reads back and leaves what follows |
| DartRoundTrip.WholeLiteral | tool/generate_protocol_contracts.py:160-186 | the printed text is exactly one literal, of that value |
| DartRoundTrip.PrintInjective | tool/generate_protocol_contracts.py:160-186 | different values never print the same, at any indentations |
| FormatBatches.Batched | tool/dart_format_scope.py:83-95 | the loop yields a split of the names into batches of at most 120 names and 28000 characters or one name, with no more batches than any other legal split |
| FormatBatches.GreedySplits | tool/dart_format_scope.py:83-95 | nothing is lost or reordered and each batch obeys both limits or is one oversized name |
| FormatBatches.GreedyStaysAhead | tool/dart_format_scope.py:83-95 | on every prefix the greedy split is no longer than any legal one, and on a tie its last batch is no longer |
| FormatBatches.GreedyIsOptimal | tool/dart_format_scope.py:83-95 | no legal in-order split has fewer batches |
| AuditChain.Chain.constructor | tool/interoperability_admin_v19.py:666-670 | a new chain is empty and verifies |
| AuditChain.Chain.Append | tool/interoperability_admin_v19.py:672-696 | a blank field or signer is refused and changes nothing, otherwise exactly one record of the stripped event is added, numbered, linked, hashed and signed, and a verifying chain still verifies |
| AuditChain.Chain.Verify | tool/interoperability_admin_v19.py:698-717 | no fault iff every record holds the hash before it, its own hash and the signature over it, otherwise the first faulty record with its fault; a blank signer is a fault where signing raises |
| AuditChain.FaultExact | tool/interoperability_admin_v19.py:698-717 | the fault of a record is the first of a wrong link, a wrong hash, a signer that cannot sign and a wrong signature |
| AuditChain.PrefixVerifies | tool/interoperability_admin_v19.py:698-717 | every prefix of a verifying chain verifies |
| AuditChain.AppendsVerify | tool/interoperability_admin_v19.py:672-717 | any sequence of appends verifies and is numbered from one |
| AuditChain.AppendsRecord | tool/interoperability_admin_v19.py:672-696 | the chain after any appends holds the accepted events in order, one numbered, linked and signed record each |
| AuditChain.LastHashDetermines | tool/interoperability_admin_v19.py:672-717 | with a collision-free hash avoiding the zero value, verifying chains with one last hash hold the same records |
| AuditChain.EditIsCaught | tool/interoperability_admin_v19.py:698-717 | replacing any record of a verifying chain fails verification, for the last one unless its hash changes too |
| AuditChain.TruncationChangesHash | tool/interoperability_admin_v19.py:672-717 | a proper prefix never has the chain's last hash |
| CapabilityGrant.GrantUseLedger.ConsumeUse | tool/capability_grant_v2.py:215-242 | the ledger object follows the specified step, and a rejected use changes nothing |
| CapabilityGrant.VerifyAndConsumeUse | tool/capability_grant_v2.py:245-292 | the whole check in its order of tests, which `AnswersExactly` writes out, with the ledger untouched unless accepted |
| GrantAnswers.AnswersExactly | tool/capability_grant_v2.py:139-292 | in any run a call is accepted iff its grant is well formed, signed with a known usable key, bound to the expected run, task, actor, tool and profile, inside its window, and unspent on the ledger; otherwise it answers the code of the first clause that fails and the ledger stays |
| GrantAnswers.OwnCode | tool/capability_grant_v2.py:245-292 | a single failing clause answers its own code |
| GrantAnswers.SignedExactly | tool/capability_grant_v2.py:194-212 | a named usable key signs exactly the grants that are well formed once signed and changes nothing but their authentication |
| GrantRuns.OneCall | tool/capability_grant_v2.py:215-292 | an accepted call adds exactly one new token, one use below maxUses and its nonce |
| GrantRuns.NonceKeepsOwner | tool/capability_grant_v2.py:215-242 | a nonce never changes owner in any run |
| GrantRuns.UsesAreBounded | tool/capability_grant_v2.py:215-292 | over any run a grant's use count is its number of distinct accepted invocations and at most the largest maxUses presented with them |
| GrantRuns.NoReplay | tool/capability_grant_v2.py:215-292 | no invocation of a grant is accepted twice, whatever happens between |
| GrantRuns.SigningSucceeds | tool/capability_grant_v2.py:208-212 | valid content with a usable key can be signed |
| GrantRuns.SignedGrantVerifies | tool/capability_grant_v2.py:194-292 | a signed grant passes every check in its window under its key and binding |
| GrantRuns.FirstUsesAccepted | tool/capability_grant_v2.py:194-292 | a signed grant new to the ledger is accepted for exactly its first maxUses new invocations and exhausted after |
| GrantRuns.WalkFindsKeys | tool/capability_grant_v2.py:94-103 | the walk finds key material exactly when some path through nested objects and lists leads to a forbidden field |
| GrantRuns.KeysAreRefused | tool/capability_grant_v2.py:139-212 | a grant that embeds key material at any depth is neither signed nor accepted |
| GrantRuns.TamperingIsCaught | tool/capability_grant_v2.py:194-292 | with a collision-free mac any change of a signed grant under the same key and mac is rejected |
| BrowserPlan.StepFaultsAreTheRules | tool/agent_safety_v2.py:122-158 | the flag automaton accepts exactly the plans whose neighbouring steps obey the stated rules |
| BrowserPlan.FaultExact | tool/agent_safety_v2.py:122-158 | the fault of a step: which code stands for which condition on the step and the one before it |
| BrowserPlan.Validate | tool/agent_safety_v2.py:122-158 | the loop accepts iff the rules hold, otherwise reports the first faulty step or the missing postcondition |
| BrowserPlan.PlansCompose | tool/agent_safety_v2.py:122-158 | accepted plans concatenate to accepted plans, and split again where the second observes first |
| ExtensionRegistry.ExtensionRegistryV2.InstallExtension | tool/extension_registry_v2.py:131-160 | the dictionary after an install is the one `InstallExact` writes out, faults change nothing |
| ExtensionRegistry.ExtensionRegistryV2.UpdateExtension | tool/extension_registry_v2.py:162-197 | the dictionary after an update is the one `UpdateExact` writes out |
| ExtensionRegistry.ExtensionRegistryV2.EnableExtension | tool/extension_registry_v2.py:199-208 | only the named entry changes, as `SwitchExact` writes out |
| ExtensionRegistry.ExtensionRegistryV2.DisableExtension | tool/extension_registry_v2.py:210-213 | only the named entry changes, as `SwitchExact` writes out |
| ExtensionRegistry.ExtensionRegistryV2.RevokeExtension | tool/extension_registry_v2.py:215-220 | only the named entry changes, as `SwitchExact` writes out |
| RegistryRules.InstallExact | tool/extension_registry_v2.py:104-160 | an install is accepted iff the candidate is signed with the digests of the actual code and tests and its identity is new; the code of each refusal; what the new entry holds |
| RegistryRules.UpdateExact | tool/extension_registry_v2.py:104-197 | an update is accepted iff such a candidate has the identity of an installed, unrevoked extension and a higher version; the code of each refusal in order; changed capabilities disable it and ask for review |
| RegistryRules.SwitchExact | tool/extension_registry_v2.py:199-220 | when enabling is accepted, and exactly what enabling, disabling and revoking change |
| RegistryRules.VersionOrder | tool/extension_registry_v2.py:252-257 | versions are ordered by the first number that differs and then by suffix, totally |
| RegistryRules.ManifestsWereChecked | tool/extension_registry_v2.py:104-197 | every manifest in a reachable registry was brought by an accepted command whose candidate was signed and whose two digests agreed |
| RegistryRuns.RejectedChangesNothing | tool/extension_registry_v2.py:131-220 | a rejected call leaves the registry as it was |
| RegistryRuns.ReachableIsSane | tool/extension_registry_v2.py:131-220 | in every reachable registry an enabled extension is neither revoked nor awaiting review |
| RegistryRuns.RevokedForever | tool/extension_registry_v2.py:131-220 | a revoked identity stays revoked and disabled, and every later install, update or enable of it is rejected |
| RegistryRuns.VersionsRise | tool/extension_registry_v2.py:162-197 | over any run the manifest under an identity is the same or has a strictly higher version |
| RegistryRuns.ReviewKeptIff | tool/extension_registry_v2.py:189-195 | a step keeps unapproved capabilities under review iff it is not a same-capability update of an extension still under review |
| RegistryRuns.EnabledIsApproved | tool/extension_registry_v2.py:131-220 | without such updates every enabled extension's capabilities were approved |
| RegistryRuns.ClearedReviewIsSkipped | tool/extension_registry_v2.py:189-208 | after any same-capability update of an extension under review, enabling it is accepted without approval and leaves unapproved capabilities enabled |
| RegistryRuns.ReviewSkippedIff | tool/extension_registry_v2.py:131-220 | at no point of a run can unapproved capabilities be enabled without approval if and only if the run has no such update |
| RegistryRuns.ReviewCanBeSkipped | tool/extension_registry_v2.py:189-208 | a concrete run of accepted calls that enables capabilities nobody approved |
| SourceManifest.ParseSourceManifest | tool/capture_baseline.py:162-187 | the loop over lines computes the specified parse, refusals included |
| ManifestRoundTrip.PathAcceptedIff | tool/capture_baseline.py:148-159 | a path is accepted iff it is canonical, and then unchanged |
| ManifestRoundTrip.LinesSplit | tool/capture_baseline.py:167-169 | a text is split at its first line break, whichever it is |
| ManifestRoundTrip.LineExact | tool/capture_baseline.py:172-180 | a line is split at its first two blanks in a row and accepted iff the left part is a digest of either case within whitespace and the right part a canonical path |
| ManifestRoundTrip.LineRoundTrip | tool/capture_baseline.py:162-191 | a printed line parses back to its entry |
| ManifestRoundTrip.PrintThenParse | tool/capture_baseline.py:162-191 | parsing a printed manifest returns the same entries in path order |
| ManifestRoundTrip.ParseThenPrint | tool/capture_baseline.py:162-191 | printing an accepted manifest and parsing it gives the same entries: printing is a normal form |
| ManifestRoundTrip.PrintOrderIrrelevant | tool/capture_baseline.py:190-191 | the same entries printed in any order parse alike |

## Left out

- JSON decoding and the checks that only reject values of the wrong type; missing texts and lists are `""` and `[]`.
- Error messages: a refused input is one value, an engine's reason and error codes are kept.
- SHA-256, HMAC and canonical JSON are function parameters; a theorem names it when it needs them collision-free. Decision and report digests and the decision identity are not modelled.
- Clocks and timestamp parsing: times are integers passed in, the router's `now` included.
- `lower()` outside ASCII.
- Scores, costs and ratios are exact reals: their rounding is not modelled.
- Dart literals of fractional numbers, and the 64-bit range of Dart integers. The reader refuses an escape that denotes a surrogate.
- JSON maps are entry lists in iteration order; distinctness of their keys is not needed for the round trip and not required.
- The compactor's entries carry identity, kind, timestamp, turn and summary; their remaining fields are one opaque text that nothing changes, and `frame` gives the serialised length of what surrounds a summary.
- The trimming loop of `Trim` stops and says so when it has reached a list that it can no longer change, where the loop as written would go on for ever.
- UTF-8 encoding of manifests; `\r\n` splits a line twice in the model, and the empty line between is skipped as the code skips any blank line.
- The registry's envelope signature and manifest schema checks: a candidate arrives verified or not, with its version parsed.
- `MoreOverlaysNarrow`, `AddingOverlaysNeverRelaxes`, `OverlayOrderIrrelevant` and `NothingExceedsTheCeiling` take any normaliser, with its results on the prefixes settled and no lease named "*"; `PolicyGuarantees` restates them for the real one on raw inputs. `PathsExact` and `EvaluatedIff` ask for settled prefixes, `LeasesExact` for no lease named "*"; `PolicyExactness` shows what happens otherwise.
- ReasonsExact: states which reasons a progress delta reports, not their order.
- Dart's reading of a value that no delimiter follows directly: the reader refuses it, so that adjacent and multi-line strings, longer identifiers and fractional numbers are not taken for printed values.
- The other policies and reports of the safety module (`InjectionGuard`, `TerminalPlanningPolicy`, research answers, the compatibility matrix) and the other manifests and controllers of the interoperability module.
- Simpler repeats of the modelled patterns: the IPC replay set, the agent-to-agent bridge, release-readiness gates and benchmark averages.
- Everything that reads files, runs processes, talks to the network or renders reports.
