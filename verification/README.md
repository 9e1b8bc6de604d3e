# coraza-operator rule distribution, in Dafny

The operator turns SecLang rule objects into one compiled text per RuleSet and brings it to the WAF engines that refer
to it: sources, `Compile`, two reconcilers, an in-memory publish/subscribe store with one-slot channels, a gRPC stream,
a hot swap in the engine, and the two request handlers that use the swapped rules. This project models that pipeline
and proves, over every interleaving of the goroutines involved, what it promises and exactly where it falls short.
Bundles are never partial or reordered. Once the reconcilers are idle and the engine at rest, the store serves the
compiled form of the RuleSet's sources, and a connected engine has been handed the newest publication exactly when its
`Subscribe` did not lose a race with a publication; one that lost it is starved until the next publication to its key
or until its stream breaks. From every other state, short of a deadlock of the store, the system can settle with nothing
going wrong, and from a starved one with a single reconnect; a deadlock can happen, and then it is for ever. The
statements about the RuleSet's current sources hold provided no watch event that matters is lost: a failed List in a
mapping function, or a status update that changes nothing, can leave a stale text behind. Which events matter is stated
exactly.

`dafny verify dfyconfig.toml` checks all files.

## The parts

| file | subject |
|---|---|
| Sequences | splitting a sequence at a separator, first positions |
| Text, Compiler, BundleText | line splitting and the two regular expressions; `Compile` and `CountRules` as loops over a specification; the compiled text read back, so the digest gate loses no edit |
| Store, StoreProperties, StoreObject | the store as a transition system with the code's own step boundaries; its theorems; its methods as a class for callers with no concurrency |
| Delivery | subscription, stream, reconnects and the engine that applies what arrives |
| Sources | reading a RuleSet's references (two loops), and the watch functions |
| Controllers | the two reconcilers as a work-queue protocol on one store key |
| EndToEnd | reconcilers, store, stream and engine together |
| Provider, BundleHandler | the two-pointer swap, the fold over received bundles, the cache file |
| Conditions | the Engine's status conditions over runs of reconciles |
| Requests, Spoe, Numerals | the HTTP and SPOE request machines, SPOE arguments, `rule_ids` |
| Wrappers | Option and Result |

The main results are `EndToEnd.EngineRunsItsRuleSet`, `EndToEnd.SettlesIff`, `EndToEnd.RecoversIffNotDeadlocked`,
`Controllers.Convergence`, `Controllers.HeededIffNeverStale`, `StoreProperties.DeliveryOrder`,
`StoreProperties.LatestValueCoherence`, the blocking lemmas of `StoreProperties`,
`StoreProperties.FreedIffNotDeadlocked`, `Delivery.EngineAgreement`, `Delivery.LatestIffNotStarved`,
`Delivery.StarvedStaysStarved`, `BundleText.HashGateLosesNoEdit`, `Compiler.CountsAgree`,
`Compiler.CompileIsCompositional`, `Conditions.PersistedConditionsAreCoherent` and `Requests.MachinesAgree`.

## Modelling decisions

- Text is a sequence of Unicode code points. A code point takes at least one byte, so a length bound on code points
  is also one on bytes.
- SHA-256 (section 6.2 of FIPS 180-4) is a function parameter `sha`; where it matters it is required to be injective
  and never empty. Coraza is a predicate `parses` on text and a script of phase verdicts.
- Channels follow the Go Language Specification, sections "Send statements", "Receive operator" and "Select
  statements": a buffer of one, and a blocked send may proceed once there is room. After a drain either the publisher
  or a waiting `Subscribe` may be the one to proceed.
- Messages, subscriptions and pointers carry history (positions, counts) that no step reads back.
- In Controllers the engine's reference to its RuleSet is fixed, both objects exist, reads return the object as it is
  at that moment, and a change and the watch event it causes are one step. A key whose retry is scheduled, after an
  error or after a `RequeueAfter` that answers a failed read, counts as queued. Every other requeue is a nudge, which
  may come at any time.
- The Lists behind the three watch mappings may fail; the code logs that and drops the event, so an edit or a status
  update carries a flag `lost`. Convergence, and what follows from it, is stated for runs whose changes are `Heeded`:
  the change wakes the reconciler it concerns, or the reconciles in flight are `OnCourse` without that. On course means
  that, finished with the objects as they are after the change, the RuleSet's reconcile compiles the current text or
  nothing, and, once it has nothing more to announce, the engine is queued or its reconcile leaves that text stored.
  `ConvergenceWhenEventsArrive` shows that changes are heeded whenever every event arrives, and `HeededIffNeverStale`
  that the condition is exact. The List of `publishToEngines` may fail freely.
- A stream's handler leaves its loop and unsubscribes only once the stream is broken.
- Clocks are parameters. The store field of both reconcilers is set.

## Where promise and code differ

The model follows the code.

- store.go:156 says the initial send always succeeds, store.go:70-73 that publishers do not block. Both fail when a
  publication completes between the registration and the initial send: `SubscribeCanBlock` and `PublisherCanBlock`
  give the runs, `BlockingNeedsARace` and `NoRaceNoBlocking` the condition, `MutexHeldUntilReceive` the consequence.
- provider.go:77-79 says a reader never sees the new state with the old WAF. That holds for a reader that loads the
  state first (`StateThenWaf`); in the other order `WafThenState` says exactly when it fails.
- compiler.go:67 speaks of duplicates across sources; a duplicate within one source is rejected too.
- A successful swap clears the last error (provider.go:100-105), and a new provider starts with rule count 0
  (provider.go:57-60).
- Convergence needs changes to be heeded. A status update that repeats digest and timestamp, or whose event is lost, and
  a lost edit can each, as the only unheeded change of a run, leave both keys idle over a stale text
  (`StaleBundleIsReachable`); `HarmlessEdits` lists lost edits that cannot.
- store.go:139-140 relies on callers to unsubscribe, which takes the mutex. A publisher blocked on a subscription whose
  handler leaves its loop instead of receiving (server.go:143-146) holds that mutex for ever: `DeadlockIsForever`,
  `FreedIffNotDeadlocked`, `BlockedSubscribeCanDeadlock`.
- server.go:138-160 forwards from the channel `Subscribe` returns, so a stream whose `Subscribe` is blocked forwards
  nothing (`StarvedEngineIsReachable`, `StarvedStaysStarved`).

## Model

| member | source | states |
|---|---|---|
| EndToEnd.EngineRunsItsRuleSet | internal/controller/ruleset_controller.go:123-167 | for every interleaving of edits, both reconcilers, all users of the store, stream failures and reconnects whose changes are heeded: once nothing is queued or in flight and the connected engine is at rest, the store serves the compiled form of the current sources; the engine has been handed the newest publication iff its `Subscribe` is not blocked, and then its active rules, and the text any handler given those bundles has swapped in, are that form, if it parses |
| EndToEnd.SettlesIff | internal/rulestore/store.go:141-170 | after every run, the system can settle with no edit, no failing call and no break of the stream iff the store is not deadlocked and the open stream, if any, is not starved, or a fan-out is about to reach it, or the reconcilers owe the store a bundle with a digest other than the stored one: one they hold, the completion of a reconcile that reads, or the current text where a reconcile has still to read it all; idle reconcilers owe nothing, and after a heeded run others do as long as the store does not serve the compiled form of the sources |
| EndToEnd.SettlesOnItsStream | internal/grpcserver/server.go:138-160 | short of a deadlock, an open stream that is not starved, or about to be reached by a fan-out, settles as it is, and with none open a new one does; if the changes so far were heeded, the engine then runs the compiled form of the sources, if it parses |
| EndToEnd.EveryRunCanRecover | internal/controller/ruleset_controller.go:57-128 | from every reachable state with no deadlocked store, starved engines and blocked publishers included, one break of the open stream, if any, and then steps without edits, failures or breaks lead to idle reconcilers and a settled engine; if the changes so far were heeded, it runs the compiled form of the sources, if that parses |
| EndToEnd.RecoversIffNotDeadlocked | internal/rulestore/store.go:77-84 | after every run, the system can settle with one break of the stream, no edit and no failing call iff the store is not deadlocked |
| EndToEnd.DeadlockStopsPipeline | internal/rulestore/store.go:77-84 | a deadlocked store stays so, and serves what it served, through every run of reconcilers, streams and engines |
| EndToEnd.HandlerRunsActive | internal/enginepkg/server.go:300-333 | the handler's fold over the applied bundles holds text, digest, name and count of the active one, or what it held at first |
| EndToEnd.TickKeepsInv | internal/controller/ruleset_controller.go:123-128 | every step of the joint system keeps the reconciler, store, stream and engine invariants and the link between them |
| EndToEnd.PublicationMeetsGate | internal/rulestore/store.go:91-106 | what a reconciler's publication does to its view of the entry is what the store's digest gate does to the entry |
| Controllers.Convergence | internal/controller/engine_controller.go:70-109 | from any fresh start and any run of edits, torn reads, API failures and failed Lists whose changes are heeded: with neither key queued or in flight, if the current objects compile, the stored text is that compiled text, with its digest and the RuleSet's name |
| Controllers.EditIsRead | internal/controller/ruleset_controller.go:180-190 | after an edit the object reads as edited, or as missing after a deletion, and every other object as before |
| Controllers.ActKeepsInv | internal/controller/ruleset_controller.go:57-128 | every heeded action keeps: unless the RuleSet is queued, its reconcile is on course for the current text, and once it has nothing more to announce the engine is queued or on course too |
| Controllers.UnwatchedEditKeeps | internal/controller/ruleset_controller.go:237-292 | after a heeded run, an edit of an object the RuleSet does not name, with its event or without, keeps both reconcilers on course unless the engine reads outdated references |
| Controllers.ConvergenceWhenEventsArrive | internal/controller/ruleset_controller.go:237-292 | if no List of a mapping fails and every status update changes the status, every change of the run is heeded, and so the stored text of idle reconcilers is the compiled text of the current objects |
| Controllers.PublishKeeps | internal/controller/engine_controller.go:339-349 | a publication by either reconciler, stale or not, keeps them on course, because the digest gate drops only equal texts |
| Controllers.WriteStatusKeeps | internal/controller/ruleset_controller.go:93-121 | a status update that changes the status, and whose event arrives, keeps both reconcilers on course |
| Controllers.KeysAreRetried | internal/controller/ruleset_controller.go:60-73 | a key that is nudged while idle, or whose reconcile ends with an error, can be reconciled again |
| Controllers.EveryRunCanSettle | internal/controller/ruleset_controller.go:57-128 | no reachable state is a dead end: the reconcilers alone, their calls succeeding, can drain the queue from it, and after a heeded run then serve what the objects compile to |
| Controllers.HeededIffNeverStale | internal/controller/engine_controller.go:466-473 | the condition is exact: after any run of heeded changes from a fresh start, the next change is heeded iff the reconcilers by themselves, with every status event arriving and no call failing but the List before a publication, cannot go idle over a stale text after it |
| Controllers.UnheededChangeCanStayStale | internal/controller/ruleset_controller.go:241-244 | the run of the failing half, for every change that is not heeded and every state of both reconcilers |
| Controllers.HarmlessEdits | internal/controller/ruleset_controller.go:241-244 | after a heeded run, an edit needs to wake nobody if the RuleSet is queued, has yet to read, or has not read the object yet, if it is idle and the engine has yet to read, or if it does not name the object and the engine is not reading outdated references |
| Controllers.UnheededUpdateLeavesStaleBundle | internal/controller/ruleset_controller.go:216-230 | from a fresh start, a run whose only unheeded change is a status update that is lost or repeats digest and timestamp ends with nothing queued and a stale stored text |
| Controllers.LostEditLeavesStaleBundle | internal/controller/ruleset_controller.go:237-244 | from a fresh start, a run whose only unheeded change is a lost edit after both reconcilers have finished ends with nothing queued and a stale stored text |
| Controllers.StaleBundleIsReachable | internal/controller/ruleset_controller.go:113-118 | from any fresh start over one empty rule object there are three such runs, whose only unheeded changes are a repeated status, a lost status event and a lost edit |
| StoreProperties.DeliveryOrder | internal/rulestore/store.go:74-170 | in every interleaving, what a subscription receives is a subsequence, by strictly increasing positions, of its window |
| StoreProperties.WindowAtRegistration | internal/rulestore/store.go:145-153 | the window of a new subscription is the current bundle, or nothing |
| StoreProperties.WindowGrowsByAcceptance | internal/rulestore/store.go:97-104 | every step extends a window by exactly the bundle it accepts for that key while registered, and by nothing otherwise |
| StoreProperties.UnsubscribeRemoves | internal/rulestore/store.go:160-167 | unsubscribing takes that subscription, and no other, out of the subscribers of every key, and leaves all channels as they are |
| StoreProperties.UnsubscribedGetsNothing | internal/rulestore/store.go:160-167 | through every later run, whatever is published, an ended subscription is in no fan-out, its window stays closed, and it receives at most the bundle already in its channel |
| StoreProperties.LatestValueCoherence | internal/rulestore/store.go:67-121 | with no store method mid-step, a returned and registered subscription has the current bundle in its slot, or an empty slot and received it last; before any publication it has and received nothing |
| StoreProperties.BlockingNeedsARace | internal/rulestore/store.go:110-121 | a blocked initial send or a blocked publisher implies a publication accepted between registration and initial send |
| StoreProperties.NoRaceNoBlocking | internal/rulestore/store.go:108-121 | without such a race the holder of the mutex can always step and every initial send can proceed |
| StoreProperties.RaceBlocksSubscribe | internal/rulestore/store.go:145-158 | once a publication has reached a subscription before its initial send, the slot is full and `Subscribe` waits |
| StoreProperties.BlockedUntilNextPublication | internal/rulestore/store.go:155-158 | it stays so, slot unchanged, through every run that accepts nothing for the key |
| StoreProperties.MutexHeldUntilReceive | internal/rulestore/store.go:77-84 | a publisher blocked on a returned subscription keeps the mutex, so that nobody can publish, subscribe or unsubscribe, through every run without a receive from that subscription |
| StoreProperties.BlockedPublisherHasReceiver | internal/rulestore/store.go:110-121 | the subscription a publisher is blocked on has been returned to its consumer, and can be received from iff the consumer has not left |
| StoreProperties.MutexCanBeFreed | internal/rulestore/store.go:74-85 | unless deadlocked, the holder of the mutex, helped by receives alone, can finish its fan-out, with no further publication |
| StoreProperties.DeadlockIsForever | internal/rulestore/store.go:160-167 | a publisher blocked on a subscription whose consumer has left keeps the mutex, nobody can publish, subscribe or unsubscribe, and every bundle stays as it is, through every run |
| StoreProperties.FreedIffNotDeadlocked | internal/rulestore/store.go:77-84 | in every reachable state: some run frees the mutex iff no publisher is blocked on a subscription whose consumer has left |
| StoreProperties.BlockedSubscribeCanDeadlock | internal/rulestore/store.go:110-121 | every blocked `Subscribe` can end in such a deadlock, on its own subscription, with a single further publication, to its key |
| StoreProperties.DeadlockIsReachable | internal/grpcserver/server.go:138-146 | a deadlock is reachable from the empty store |
| StoreProperties.SubscribeCanBlock | internal/rulestore/store.go:153-158 | a reachable state in which `Subscribe` is blocked with the newer bundle in its slot |
| StoreProperties.PublisherCanBlock | internal/rulestore/store.go:110-121 | a reachable state in which a publisher is blocked with the mutex held and the oldest bundle in the slot |
| StoreProperties.PublishAlone | internal/rulestore/store.go:74-85 | left alone, the steps of `Publish` amount to one broadcast: every subscriber of the key holds the new bundle, no other channel changes |
| StoreProperties.PublishIfChangedAlone | internal/rulestore/store.go:91-106 | left alone, the steps of `PublishIfChanged` amount to that broadcast, or to nothing iff the key's current bundle has the same digest |
| Store.StepKeepsInv | internal/rulestore/store.go:74-170 | every step keeps message order, coherence of the subscriptions a fan-out has passed, and the map of current bundles |
| Store.ReachableInv | internal/rulestore/store.go:59-65 | the invariant holds in every state reachable from the empty store |
| StoreObject.RuleStore.SendLatest | internal/rulestore/store.go:110-121 | the channel holds exactly the new bundle afterwards |
| StoreObject.RuleStore.Publish | internal/rulestore/store.go:74-85 | the map entry is replaced and every subscriber of the key holds the bundle; channels of other keys keep what they hold |
| StoreObject.RuleStore.PublishIfChanged | internal/rulestore/store.go:91-106 | accepted iff the digest differs from the current one; otherwise nothing changes; the entry has that digest afterwards; channels of other keys keep what they hold |
| StoreObject.RuleStore.Subscribe | internal/rulestore/store.go:141-170 | a fresh channel under the key that holds the current bundle, if any; other keys keep theirs |
| StoreObject.RuleStore.Unsubscribe | internal/rulestore/store.go:160-167 | removes the channel, also when called again, and the key's entry with its last subscriber |
| Delivery.EngineNeverGoesBack | internal/enginepkg/grpcclient.go:84-106 | for any pattern of stream failures, applied bundles are publications in non-decreasing order |
| Delivery.EngineAgreement | internal/grpcserver/server.go:138-160 | connected, drained, store at rest: the active bundle is the store's current one if that parses, and the initial rules before any publication |
| Delivery.LatestIffNotStarved | internal/rulestore/store.go:153-158 | for every run that ends with the engine at rest and its key published: it has been handed the newest publication iff its `Subscribe` is not blocked |
| Delivery.StarvedLacksLatest | internal/rulestore/store.go:153-158 | a starved engine's active bundle is older than the newest publication |
| Delivery.StarvedStaysStarved | internal/grpcserver/server.go:138-160 | a starved engine's active rules stay as they are through every run without a publication to its key or a break of its stream |
| Delivery.StarvedDisconnectCanDeadlock | internal/grpcserver/server.go:138-146 | from every state with a starved engine and a free mutex, the break of its stream and then a single publication, to its key, can deadlock the store on its subscription |
| Delivery.StarvedEngineIsReachable | internal/rulestore/store.go:145-158 | two publications with a connection in between leave an engine at rest that was handed neither |
| Delivery.MoveKeepsInv | internal/enginepkg/grpcclient.go:292-306 | every move keeps: the stream's subscription received what was applied on this stream plus what is on the wire, all newer than what earlier streams delivered |
| Delivery.ArrivalIsNewer | internal/enginepkg/grpcclient.go:292-306 | what arrives is a publication no older than anything applied before, also right after a reconnect |
| Compiler.Compile | internal/compiler/compiler.go:69-113 | succeeds iff no two directive lines carry the same id, with the banner text, its digest and the int32 count; otherwise reports the earliest repeating line and that id's first declarer |
| Compiler.ScanBody | internal/compiler/compiler.go:90-104 | the scan of one body keeps the owner map exact and stops at the first repeated id |
| Compiler.CountRules | internal/compiler/compiler.go:123-131 | the number of directive lines of a text |
| Compiler.OutcomeIsDetermined | internal/compiler/compiler.go:69-113 | the contract of `Compile` leaves exactly one result for given sources and digest |
| Compiler.ConflictIsUnique | internal/compiler/compiler.go:97-103 | the conflict reported is determined by the sources |
| Compiler.DeclarationsAreLines | internal/compiler/compiler.go:90-104 | the declarations of a list of sources are exactly its directive lines with an id, in reading order, under the labels of their sources |
| Compiler.ConflictIsTwoLines | internal/compiler/compiler.go:97-103 | `Compile` fails iff two different lines are directives with one id, and then names such an id and the sources of two such lines, the earlier one first |
| Compiler.WholeNumbersConflict | internal/compiler/compiler.go:97-103 | one-line bodies that differ in the id alone conflict iff the ids are equal as whole digit strings |
| Compiler.TextOfOneSource | internal/compiler/compiler.go:80-88 | the text of a source, spelt out: both banners with kind and name, and a newline added to a body iff it is non-empty and has none at its end |
| Compiler.WrapIsCongruent | internal/compiler/compiler.go:78-95 | the operator's count differs from the number of rules by a multiple of 2^32 |
| Compiler.CountIsCardinality | internal/compiler/compiler.go:120-131 | the count of a text is the number of positions of its lines that are directives |
| Compiler.CompileIsCompositional | internal/compiler/compiler.go:80-113 | `Compile(A ++ B)` succeeds iff both halves do and share no id; then texts concatenate and counts add |
| Compiler.ConflictIsStable | internal/compiler/compiler.go:99-101 | a conflict in the first sources is reported whatever follows |
| Compiler.CountOfCompiledText | internal/compiler/compiler.go:80-88 | the directives of the compiled text are those of the bodies plus those of the banners, for any labels |
| Compiler.CountsAgree | internal/compiler/compiler.go:120-131 | the engine's count of the compiled text equals the operator's int32 count iff no banner line reads as a directive and the total fits; one-line labels and less than 2^34 characters of bodies suffice |
| Compiler.RulesAreHeavy | internal/compiler/compiler.go:30 | eight times the rule count is at most the sum of body lengths plus one each |
| Text.DirectiveIsMatch | internal/compiler/compiler.go:28-30 | the directive test is a match of the expression, by code points: white space, either keyword in any case, U+017F for s included, and no word character after it |
| Text.RuleIdIsMatch | internal/compiler/compiler.go:32-33 | the id of a line is `d` iff the leftmost match of the expression, by code points, has `d` as its whole run of digits |
| Text.NoRuleIdIsNoMatch | internal/compiler/compiler.go:32-33 | a line has no id iff the expression matches nowhere |
| Text.FindId | internal/compiler/compiler.go:32-33 | the leftmost `id:` at a word boundary with a digit after it, or none |
| Text.Digits | internal/compiler/compiler.go:32-33 | the longest run of digits |
| Text.LinesOfJoin | internal/compiler/compiler.go:91 | splitting distributes over a joining newline |
| BundleText.DecodeOfCompiledText | internal/compiler/compiler.go:80-88 | from the compiled text alone the kinds, names and normalised bodies can be read back, in order |
| BundleText.HashGateLosesNoEdit | internal/rulestore/store.go:97 | readable source lists have equal digests iff kinds, names and normalised bodies agree in order |
| BundleText.SingleEditIsSeen | internal/compiler/compiler.go:107-112 | an edit of one body changes the digest iff it changes the normalised body, for any sources |
| BundleText.EndBannerInBodyCollides | internal/compiler/compiler.go:82-88 | a body that contains its own end banner can make two different source lists compile to one text |
| Sources.CollectSources | internal/controller/ruleset_controller.go:173-214 | the sources in order, or the problem of the first failing reference, as a status or as an error |
| Sources.CompileRuleSet | internal/controller/engine_controller.go:354-391 | the compiler's result on the sources in order, or the problem of the first failing reference as an error |
| Sources.KindsByName | internal/controller/ruleset_controller.go:176-211 | a reference of kind "SecRules" or "" is read from the SecRules of that name in the RuleSet's namespace, one of kind "ClusterSecRules" from the ClusterSecRules of that name, any other kind is unknown; missing and failing objects are told apart |
| Sources.ResolvedInOrder | internal/controller/ruleset_controller.go:176-211 | on success every reference reads to the source at its place |
| Sources.FailsAtFirstProblem | internal/controller/ruleset_controller.go:176-211 | on failure some position is the first to fail, with that problem |
| Sources.BothCompilePaths | internal/controller/engine_controller.go:351-391 | on every snapshot the two reconcilers get the same bundle, the same conflict, or the same problem at the same first failing reference |
| Sources.EnqueueForSecRules | internal/controller/ruleset_controller.go:237-261 | exactly the RuleSets of the namespace with a reference of that name and kind "SecRules" or "", under their own namespace and name, each once; nothing when the List fails |
| Sources.EnqueueForClusterSecRules | internal/controller/ruleset_controller.go:268-292 | exactly the RuleSets with a reference of that name and kind "ClusterSecRules", under their own namespace and name, each once; nothing when the List fails |
| Sources.WatchIsComplete | internal/controller/ruleset_controller.go:232-292 | after a change to one rule object the watch misses no RuleSet that names it iff the List succeeded or none does; then every RuleSet not requested resolves as before; none is requested twice |
| Sources.ReferencedCanBeAffected | internal/controller/ruleset_controller.go:173-214 | for every RuleSet with known kinds that names an object, some change of that object changes what it resolves to, so a lost request matters |
| Sources.UnreferencedIsUnaffected | internal/controller/ruleset_controller.go:173-214 | a RuleSet that does not name the changed object has an unchanged lookup result |
| Provider.AtomicProvider.Swap | internal/enginepkg/provider.go:81-107 | text that parses replaces WAF and state and clears the error; text that does not changes only the error |
| Provider.AtomicProvider.constructor | internal/enginepkg/provider.go:54-63 | the initial WAF and digest, with rule count 0 |
| Provider.SwapLag | internal/enginepkg/provider.go:98-106 | in every run the WAF's swap index exceeds the state's by 1 between the two stores and by 0 otherwise |
| Provider.StateThenWaf | internal/enginepkg/provider.go:67-74 | a reader that loads the state and later the WAF never gets a WAF older than that state |
| Provider.WafThenState | internal/enginepkg/provider.go:76-80 | in the other order a reader pairs an old WAF with a newer state iff a swap completes between its loads, beyond one under way at the first |
| Provider.WafThenStateCanBeOlder | internal/enginepkg/provider.go:76-80 | such a run exists: one whole swap fits in between |
| BundleHandler.FoldIsLastParseable | internal/enginepkg/server.go:306-320 | after any bundles, text, digest, name and count are those of the last that parses |
| BundleHandler.FoldOfUnparseable | internal/enginepkg/server.go:307-312 | with none that parses only the failure counter has moved |
| BundleHandler.FoldCounts | internal/enginepkg/server.go:310-320 | the success counter grows by the number of bundles that parse, the failure counter by that of the others, and the gauge is the rule count of the active text |
| BundleHandler.AtomicWriteFile | internal/enginepkg/server.go:43-65 | at every crash point and for a failure of any operation, the path is as before or holds the data whole and durable; success iff nothing failed |
| BundleHandler.Handler.OnBundle | internal/enginepkg/server.go:306-332 | one step of the fold, and a cache file that is old or whole throughout |
| BundleHandler.Handler.OnBundles | internal/enginepkg/server.go:300-333 | the fold over any sequence; at every crash point the cache is as before or one whole successfully swapped text |
| Conditions.ConditionList.Set | internal/controller/conditions.go:27-35 | the list with the condition set in place or appended, transition time kept when the status stays |
| Conditions.SetAtFirst | internal/controller/conditions.go:27-35 | setting replaces the entry at the first place of the kind, or appends one at the end, and leaves every other entry in place |
| Conditions.ConditionList.Clear | internal/controller/conditions.go:38-40 | the list without that kind |
| Conditions.RemovalIsFilter | internal/controller/conditions.go:37-40 | clearing takes out the entries of the kind and keeps the others in their order |
| Conditions.SetRollout | internal/controller/engine_controller.go:288-335 | the Ready, Progressing and Degraded triple of a rollout |
| Conditions.EngineObject.Reconcile | internal/controller/engine_controller.go:113-173 | persists the wanted status iff the write is accepted, attempts no write when nothing differs, and what is persisted reports the finding |
| Conditions.WantedReports | internal/controller/engine_controller.go:113-335 | a missing RuleSet or a failed compilation is reported as Degraded True, DependencyMissing, without Ready and Progressing; an awaited compilation as Progressing True without Ready, Degraded as before; a rollout as Ready True iff all replicas are ready, with the other two, the hash, the replicas and the generation; all with their reasons and messages |
| Conditions.PersistedConditionsAreCoherent | internal/controller/engine_controller.go:260-335 | over every run with generation changes and failed writes, a persisted Ready comes with Progressing of the opposite status, Degraded False, all of one generation |
| Conditions.SecondReconcileWritesNothing | internal/controller/engine_controller.go:445-459 | a second reconcile that finds the same wants exactly what is persisted |
| Conditions.LookupAfterSet | internal/controller/conditions.go:27-35 | after setting, the condition says what was set, its transition time moves iff it is new or its status changes, and the others say what they said |
| Conditions.LookupAfterRemove | internal/controller/conditions.go:37-40 | after clearing, the kind is absent and the others are as they were |
| Requests.Exchange.Handle | internal/enginepkg/proxy.go:48-80 | one response and one of the three counters per request, upstream reached iff request inspection did not stop it, latency observed except on failures |
| Requests.Exchange.InspectRequest | internal/enginepkg/proxy.go:86-142 | stops iff some request phase faults or, when blocking, interrupts, and answers for the first such phase |
| Requests.Exchange.InspectResponse | internal/enginepkg/proxy.go:146-181 | stops with 403 iff blocking and the response headers are interrupted |
| Requests.Exchange.BlockOrDetect | internal/enginepkg/proxy.go:224-247 | answers with the interruption's status, 403 for 0, when blocking; nothing otherwise |
| Requests.SpoaHandler.HandleSPOE | internal/enginepkg/spoa.go:93-152 | one reply decided by the first interrupting or failing phase, and one outcome counted |
| Requests.SpoaHandler.ApplyInterruption | internal/enginepkg/spoa.go:269-302 | deny when blocking, allow when detecting, with the clamped status and the matched rules |
| Requests.AnswerByPhase | internal/enginepkg/proxy.go:86-203 | phase by phase, the status of the first one that stops the request, 403 for an interruption without one and for a blocked response, 500 for a failure; with none, the upstream's status, in both modes |
| Requests.RepliesByPhase | internal/enginepkg/spoa.go:117-151 | with an error exactly that and "allow"; otherwise exactly five variables: transaction id, clamped number of matched rules, their ids, and action and status by the first phase that does not pass |
| Requests.MachinesAgree | internal/enginepkg/spoa.go:122-151 | on one request in Blocking mode: SPOE denies iff the proxy blocks, reports an error iff the proxy answers 500, and the denied status is the proxy's iff it fits an int32 |
| Requests.DetectionNeverDenies | internal/enginepkg/proxy.go:82-85 | in Detection mode no interruption stops a request on either side |
| Requests.ClampInt32 | internal/enginepkg/spoa.go:256-264 | within int32, and the number itself iff that fits |
| Spoe.ParseSPOERequest | internal/enginepkg/spoa.go:195-222 | each component is the value of the last entry with its wire name, or unnamed in its place, and empty without one, the version then 1.1; or the scan error |
| Spoe.RequestIsByName | internal/enginepkg/spoa.go:175-186 | method, path, query, version, headers and body by their wire names and places 1, 2, 3, 4, 5 and 7 |
| Spoe.LastMatchWins | internal/enginepkg/spoa.go:201-211 | the last entry meant for a field decides it |
| Spoe.NoMatchNoValue | internal/enginepkg/spoa.go:196-211 | a field no entry is meant for stays empty |
| Spoe.PositionalFormIsNamedForm | internal/enginepkg/spoa.go:172-186 | a message in the default order parses alike with and without names, also when cut short |
| Spoe.OrderDoesNotMatter | internal/enginepkg/spoa.go:202-211 | distinctly named entries may come in any order |
| Spoe.TrailingUnnamedIgnored | internal/enginepkg/spoa.go:204-210 | unnamed entries from index 8 on change nothing |
| Spoe.BuildRuleIDs | internal/enginepkg/spoa.go:370-385 | the comma-separated decimal texts of the deduplicated ids |
| Numerals.TextIsDecimal | internal/enginepkg/spoa.go:382 | the text of a number is its decimal form without a leading zero |
| Spoe.RuleIdsRoundTrip | internal/enginepkg/spoa.go:369-385 | splitting on commas and reading the numbers gives back the deduplicated ids; empty iff nothing matched |
| Spoe.DedupKeepsFirstOccurrences | internal/enginepkg/spoa.go:375-383 | no id twice, in order of first occurrence |

## Left out

- Coraza itself: parsing and rule evaluation are a predicate and a script of verdicts.
- PKI, TLS, TokenReview, enrollment and the certificate check before a subscription.
- The SPOP wire codec and the header block of an SPOE message: the model starts from decoded entries, and header parse errors are non-fatal in the code.
- The URI built from path and query of an SPOE request: one concatenation.
- net/http below the handler: invalid or informational status codes passed to `http.Error`, panics of the reverse proxy, response header and body copying.
- Manifest builders, owned objects and the `mutate` functions: field copying.
- The SecRules and ClusterSecRules reconcilers and the status conditions of the RuleSet: a simpler copy of the Engine's.
- The filter inside `enqueueEnginesForRuleSet` (by RuleSet name): easy; Controllers takes its effect, a failed List included, as part of a step.
- StoreObject.RuleStore.Get: a map lookup, without a row of its own.
- A change of an engine's RuleSet reference between listing engines and publishing to them, and RuleSets or engines that are deleted.
- Several concurrent callers of `Swap`: production has one, and the pointer order does not hold with more.
- The reconnect backoff, timeouts, logging and shutdown.
- Exact message texts of lookup problems: the two loops use the same format strings, modelled as one constructor each.
- BundleText.HashGateLosesNoEdit: asks that no body line be its section's own end banner; `EndBannerInBodyCollides` shows the need, and without it only `SingleEditIsSeen` is claimed, because which larger edits collide depends on where begin banners follow in the bodies.
- Store.Enabled: no fairness; that a waiting goroutine is eventually scheduled is not claimed.
