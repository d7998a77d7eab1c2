# Verified models of the gateway's core algorithms

This project models the parts of the AI gateway that carry real state, branching or arithmetic, and
proves what they are for. Everything is stated for all inputs, all runs or all reachable states.

* **Dependency flattener** (`cli/scripts/build-cli.js`). `Paths` models file paths as segment
  sequences and shows that `node_modules` slots are injective. `SourceTree` and `SourceScan` model
  the recursive scan of a possibly cyclic, symlinked bundle and the worklist that records what each
  package resolves to; `ScanOrder` says in which order packages are met. `Flattening` and
  `Wiring` model `place`, `resolve` and `wire`;
  `FlatteningLaws` says when flattening succeeds and that its result is the only possible one,
  `FlatteningExistence` which bundles have one at all; `CopyRuntimeModules` joins both halves,
  `RunDeterminism` shows that the source alone decides the outcome, and
  `FlatteningExamples` and `BundleExample` are instances. Precondition
  of the source: `dest` is a `node_modules` directory, names are `x` or `@s/x` and never `node_modules`.
* **Realtime socket queues** (`custom-server.js`). `RealtimeProtocol` is a step system over socket
  events, setup continuations and finished handler calls; `RealtimeLaws` states what every run keeps;
  `RealtimeMeaning` what single events do; `RealtimeSocket` is the closure with its handlers, each of which
  is a step and keeps the invariant.
* **Retry engine** (`open-sse/executors/base.js`, `open-sse/config/runtimeConfig.js`, the outer loop of
  `open-sse/executors/codex.js`). `RetryPolicy`, `RetryEngine` and `CodexRetry` run against an
  arbitrary upstream and an arbitrary caller abort; what they promise leaves only one possible run.
  `RetryMeaning` states each decision in terms of the policy's entries and of what the upstream did.
* **CommandCode streams** (`open-sse/executors/commandcode.js`). `Records` splits text at a separator
  in arbitrary pieces; `CommandCode` gives the preflight verdict on a byte sequence, `Preflight` the
  reader that reaches it chunk by chunk, `SseTransducer` the NDJSON to SSE transform.
* **Kiro schema flattening** (`open-sse/config/kiroConstants.js`). `KiroSchema` is the rewrite,
  `KiroSchemaLaws` and `KiroMeaning` its meaning, `KiroNormalizer` the loops.
* **Codex peek** (`open-sse/executors/codex.js`): `CodexPeek`; `PeekMeaning` says which frames lead to which report.
* **ChatGPT extraction** (`open-sse/executors/chatgpt-web-http.js`): `ChatGptStream` turns cumulative
  snapshots into deltas, `ChatGptMeaning` reads its results off the events, `ChatGptBuilder` sends rendered
  answers.
* **Microsoft 365 socket** (`open-sse/executors/copilot-m365-frames.js`, `copilot-m365-web.js`):
  `M365Frames` and `M365Socket`.
* **Codex app-server turn** (`open-sse/executors/codex-app-server.js`): `AppServerTurn` is the step
  system, `TurnMeaning` what it streams, `AppServerStream` the closure variables and callbacks.
* **Antigravity shaping** (`open-sse/executors/antigravity.js`): `AntigravityContents`,
  `AntigravityTools`, `AntigravityCloak`.
* **Account rotation** (`open-sse/executors/accountRotation.js`): `AccountRotation`.

Outside code is a parameter: the file system, JSON parsing, the event translator, upstream answers, the
clock, random jitter, and all orders of asynchronous events.

## What the proofs found

* After a refused key `custom-server.js` line 385 empties the hold queue but keeps its byte counter.
  `RealtimeLaws.CounterExactUnlessRefused` says that this is the only step that breaks the counter, exactly
  when held bytes were present; `CounterLeakExample` is an instance. The budgets hold all the same.
* `wire` throws exactly when a package would have to be nested below itself (`Wiring.Flatten`); a cycle is
  necessary for that but not sufficient (`FlatteningLaws`; `BlockedExample` is one of two packages,
  `BundleExample` one on disk that any run must refuse). The refusal is cautious: `FlatteningExamples` has a
  bundle that is refused though a faithful tree exists. Such a tree exists if and only if the nesting ends at
  some depth (`FlatteningExistence.FaithfulExistsIff`), and there is never more than one
  (`FlatteningLaws.FaithfulIsUnique`).
  Everything else that rejects a bundle is a file the scan looks at: `CopyRuntimeModules.Run` gets past
  the scan if and only if all of those exist, stay inside the bundle and have their manifests.
* In ChatGPT extraction the deltas miss the final answer exactly when a message goes live only after its
  text came and no event with parts follows (`DeltasAreTheAnswerIff`, `StallExample`).
* In the app-server turn an empty turn id uses up the one pending interrupt (`EmptyIdLosesInterrupt`). The
  interrupt stays exact along a run if and only if no empty id comes after the early end
  (`ExactThroughoutIff`), and one goes out if and only if the turn that was ended got a real id
  (`InterruptedIff`).
* A reported error ends that stream with an error record if and only if its sanitised first line is not
  empty (`ErrorShownIff`); `HiddenErrorExample` is an error that reads like a finished answer.
* Two branches are dead: `custom-server.js` lines 341-348 never find held frames in a ready session, and
  line 185 of `copilot-m365-web.js` never finds a completed stream still open. The proofs show it where
  `RealtimeSocket.Socket.OnMessageEvent` and `M365Socket.WebSocketChat.OnClose` assert it.
* `cloakTools` undoes the renaming of every declared client tool, except GitHub Copilot's use of
  the one decoy that is not a native tool: its declaration is dropped but its calls are renamed (`UncloakIff`,
  `CallsStayDeclaredIff`, `ExtraDecoyExample`).
* In `emitRenderedAnswer` the comparison after `commonPrefixLength` always returns: a rewritten answer is
  never sent (`ChatGptBuilder.Builder.EmitRenderedAnswer`).

## Model

| member | source | states |
|---|---|---|
| Paths.SlotInjective | cli/scripts/build-cli.js:89-89 | `dir/node_modules/name` determines both `dir` and `name`, so no two placements share a target by accident |
| Paths.SlotsIncomparable | cli/scripts/build-cli.js:147-147 | targets of different names below one owner are never inside one another |
| Paths.BetweenIsNoSlot | cli/scripts/build-cli.js:147-147 | no path strictly between an owner and its target is itself a target of anything |
| Paths.BelowOneSlot | cli/scripts/build-cli.js:147-147 | a path lies below at most one sibling target |
| Flattening.ResolveFrame | cli/scripts/build-cli.js:132-138 | placing one copy changes no lookup except those that pass its owner looking for its name |
| Flattening.ResolveFindsNearest | cli/scripts/build-cli.js:132-138 | the lookup gives the nearest copy from the consumer up to the base, and nothing exactly when there is none on the way |
| Flattening.ResolveFromSlot | cli/scripts/build-cli.js:132-138 | before anything is nested in it, a fresh target sees exactly what its owner sees |
| Flattening.PlaceKeepsWired | cli/scripts/build-cli.js:139-155 | a later placement never changes what an already wired target resolves |
| Flattening.PlaceKeepsNecessary | cli/scripts/build-cli.js:145-149 | nested copies stay necessary: without each one its owner would resolve the name wrongly |
| Flattening.PlaceKeepsInv | cli/scripts/build-cli.js:127-130 | one placement keeps the whole invariant of the tree under construction |
| Flattening.GrowthIsInvisible | cli/scripts/build-cli.js:150-153 | wiring below one sibling changes nothing the owner sees |
| Wiring.Flattener.Place | cli/scripts/build-cli.js:127-130 | a target is written at most once, and the invariant is kept |
| Wiring.Flattener.Lookup | cli/scripts/build-cli.js:132-138 | the upward walk computes Node-style resolution up to the base |
| Wiring.Flattener.PlaceRoots | cli/scripts/build-cli.js:131-131 | the hoisted copies are exactly the root names |
| Wiring.Flattener.PlaceConflicts | cli/scripts/build-cli.js:144-149 | nests exactly the dependencies the view from above resolves wrongly, after which the target sees its own versions |
| Wiring.Flattener.Nest | cli/scripts/build-cli.js:143-149 | nests exactly the conflicts of a target, leaves every other part of the tree untouched, and the target is wired |
| Wiring.Flattener.Wire | cli/scripts/build-cli.js:139-154 | fails exactly when the package is blocked by its ancestors; otherwise every copy at or below the target resolves as in the source and is wired once; termination is on the shrinking set of packages not among the ancestors |
| Wiring.Flattener.WireEach | cli/scripts/build-cli.js:150-155 | the same for a row of siblings, placed before any of them is wired |
| Wiring.Flatten | cli/scripts/build-cli.js:113-155 | the placement phase succeeds if and only if no root is blocked; then every copy resolves every dependency as in the source, no nested copy is idle, exactly the root names are hoisted, and each target is placed once and wired once |
| FlatteningLaws.FaithfulIsUnique | cli/scripts/build-cli.js:113-155 | the graph and the roots leave only one tree that hoists them, preserves every resolution and has no idle copy |
| FlatteningExistence.FaithfulExistsIff | cli/scripts/build-cli.js:139-155 | such a tree exists if and only if nesting what each copy would resolve wrongly ends at some depth |
| FlatteningExistence.UnblockedEnds | cli/scripts/build-cli.js:139-142 | where no root is blocked the nesting ends within as many levels as there are packages |
| FlatteningExamples.RefusedWithoutNeed | cli/scripts/build-cli.js:140-142 | three packages that are refused although a faithful tree exists: the ancestor check is cautious |
| FlatteningLaws.BlockedMeansCycle | cli/scripts/build-cli.js:139-142 | a blocked package exhibits a cycle of dependencies |
| FlatteningLaws.AcyclicFlattens | cli/scripts/build-cli.js:139-142 | an acyclic graph always flattens |
| FlatteningLaws.UnambiguousFlattens | cli/scripts/build-cli.js:145-146 | cycles do no harm while every name means one package |
| FlatteningLaws.UnambiguousIsFlat | cli/scripts/build-cli.js:145-149 | and then nothing is nested: one copy per name, all at the top |
| FlatteningLaws.BlockedExample | cli/scripts/build-cli.js:139-142 | two packages that mean each other by one name cannot be flattened |
| ScanOrder.PreorderAppend | cli/scripts/build-cli.js:62-74 | going through two lists one after the other meets packages in the order of the joined list: the recursive scan is the stack form |
| SourceTree.LookupFindsNearest | cli/scripts/build-cli.js:91-103 | the source lookup gives the slot of the nearest directory with a manifest, from the package up to and including the bundle root, and nothing exactly when no such directory has one |
| BundleExample.ShelfNames | cli/scripts/build-cli.js:53-62 | of a directory with hidden, excluded and log entries, a scope and a package, the scan finds the package and those of the scope |
| BundleExample.ShelfOrder | cli/scripts/build-cli.js:57-62 | and meets them in the order of the entries, then of the scope |
| BundleExample.NamesLeftOut | cli/scripts/build-cli.js:57-58 | which names are excluded, by name or pattern, and which are not |
| SourceScan.Scanner.CheckedRealpath | cli/scripts/build-cli.js:45-52 | accepts exactly existing files whose real path stays in the bundle |
| SourceScan.Scanner.Register | cli/scripts/build-cli.js:70-72 | a package is registered before its dependencies are followed, then what it holds, depth first; cyclic bundles terminate |
| SourceScan.Scanner.NamesOf | cli/scripts/build-cli.js:57-61 | an entry stands for itself or for every package of its scope, skipping dot and excluded names |
| SourceScan.Scanner.Scan | cli/scripts/build-cli.js:53-77 | returns exactly the listed names with their real paths, meets packages depth first, keeps all earlier tables, and every listed file passed its checks; or names a culprit among the files the scan visits |
| SourceScan.Scanner.FindInSource | cli/scripts/build-cli.js:91-103 | the inner loop finds the nearest directory, up to the bundle root, that holds the name: its real path, or the error of a link that is broken or leaves the bundle; nothing exactly when none holds it |
| SourceScan.Scanner.ResolveName | cli/scripts/build-cli.js:89-105 | one declared name: skipped when excluded or known already, else resolved by the source lookup, and what it finds is registered |
| SourceScan.Scanner.ResolveDeclared | cli/scripts/build-cli.js:86-105 | every declared, non-excluded name the source lookup finds ends in the package table |
| SourceScan.Scanner.ResolveAllDeclared | cli/scripts/build-cli.js:86-106 | the loop over the growing map reaches every package, also those it discovers, in the order of the worklist, and terminates |
| SourceScan.Scanner.ScanSources | cli/scripts/build-cli.js:78-83 | the first source listing a name wins it |
| SourceScan.Scanner.HoistDependencies | cli/scripts/build-cli.js:107-112 | explicit roots keep theirs; every other dependency name gets what the first registered package depending on it means by it; nothing else is a root |
| SourceScan.MergeFirstWins | cli/scripts/build-cli.js:80-82 | merging keeps existing keys with their values and places, and appends the new ones in their order |
| SourceTree.RejectedMeansUnhealthy | cli/scripts/build-cli.js:45-65 | a link or manifest error has a culprit among the files looked at, so the bundle is not healthy |
| SourceTree.FinishedMeansHealthy | cli/scripts/build-cli.js:45-106 | a scan that goes through proves every file it looks at present, inside the bundle and with its manifest |
| SourceTree.FinishedDescribes | cli/scripts/build-cli.js:53-106 | the tables hold exactly the packages reachable from the sources, with exactly what each means by every name it depends on |
| CopyRuntimeModules.Run | cli/scripts/build-cli.js:43-155 | end to end: the scan lets through exactly the healthy bundles, and of these exactly those are shipped whose roots are not blocked, so every healthy bundle without a dependency cycle is; any rejection names a culprit among the visited files or a cycle of source lookups; a shipped tree is the one faithful tree of the recorded tables and roots: it preserves every resolution, ships what is reachable, hoists first-source-wins and nests minimally |
| BundleExample.LinkCycleIsRefused | cli/scripts/build-cli.js:139-142 | a bundle of three links on disk, healthy in every file, on which any run must report a shadowed cycle |
| RunDeterminism.RecordIsDetermined | cli/scripts/build-cli.js:53-112 | two runs on one bundle register the same packages in the same order, with the same meanings, and choose the same roots |
| RunDeterminism.OutcomeIsDetermined | cli/scripts/build-cli.js:43-155 | the source alone decides whether a tree is shipped, and which: two outcomes that meet the promise ship the same copies at the same places |
| CopyRuntimeModules.PreservedEndToEnd | cli/scripts/build-cli.js:84-155 | whatever a package means in the source by a name, declared or in its own node_modules, each copy of it resolves to a copy of that same package |
| CopyRuntimeModules.NearestEndToEnd | cli/scripts/build-cli.js:84-155 | what the nearest holder of a declared name is in the source, from the package upwards, the nearest copy of that name is a copy of, from each shipped package upwards |
| CopyRuntimeModules.ShippedEndToEnd | cli/scripts/build-cli.js:107-131 | only reachable packages are shipped, and every name one of them depends on has a top-level copy |
| CopyRuntimeModules.TableCycleIsSourceCycle | cli/scripts/build-cli.js:139-142 | a cycle in the recorded tables is a cycle of source lookups |
| CopyRuntimeModules.BlockedIsSourceCycle | cli/scripts/build-cli.js:139-142 | a blocked root of a scanned bundle shows a dependency cycle among its reachable packages |
| CopyRuntimeModules.HoistedEndToEnd | cli/scripts/build-cli.js:78-155 | every listed name has a top-level copy, of the first source that lists it, together with preservation and minimal nesting |
| RealtimeProtocol.DrainCorrect | custom-server.js:295-310 | draining delivers a prefix of the queue in order and stops at the first frame whose handler is awaited |
| RealtimeProtocol.EnqueueFits | custom-server.js:311-324 | a frame within the budgets is appended behind everything before it and no close happens |
| RealtimeProtocol.EnqueueAllFits | custom-server.js:455-463 | frames that fit together are all taken over, in order |
| RealtimeProtocol.HoldKeepsInv | custom-server.js:325-337 | holding a frame, or overflowing, keeps the invariant |
| RealtimeProtocol.ServeKeepsInv | custom-server.js:338-349 | serving a live frame keeps the invariant |
| RealtimeProtocol.HandlerDoneKeepsInv | custom-server.js:298-308 | a handler finishing, also after the queue was cleared, keeps the accounts exact |
| RealtimeProtocol.ReadyKeepsInv | custom-server.js:454-464 | becoming ready keeps the invariant |
| RealtimeProtocol.EndKeepsInv | custom-server.js:351-379 | a close or error keeps the invariant, also while a handler call is pending, and delivers nothing |
| RealtimeProtocol.SetupKeepsInv | custom-server.js:384-490 | the auth verdict, a refused control request, a rejected first frame, a failed setup and the creation of the relay keep the invariant and deliver nothing, whatever happened meanwhile |
| RealtimeProtocol.SessionKeepsInv | custom-server.js:441-485 | a session becoming ready keeps the invariant, closes nothing and delivers in order |
| RealtimeMeaning.ReadyIff | custom-server.js:441-485 | a socket gets a session in three ways only: the relay opens, its configuration is through, or the chat session is made |
| RealtimeMeaning.KindMeaning | custom-server.js:441-485 | a relay is native and takes over everything held, binary frames included; a chat session takes over the text frames |
| RealtimeMeaning.KindStays | custom-server.js:338-349 | a ready session stays ready and of its kind |
| RealtimeMeaning.HeldMessage | custom-server.js:325-337 | before that a frame is held last, unless the frame count or the held bytes would exceed the limit: exactly then the socket closes with 1009 |
| RealtimeMeaning.ServedMessage | custom-server.js:311-349 | a chat session skips binary frames; any other frame joins the end of the work, delivered at once if nothing is in flight; exactly a frame that breaks a limit closes the socket |
| RealtimeMeaning.DrainMeaning | custom-server.js:295-310 | one go hands over the frames that throw at once and the first one to be awaited, which is then in flight; the others stay queued |
| RealtimeMeaning.CompletionMeaning | custom-server.js:295-310 | a finished handler call hands over what comes next up to the first frame to be awaited, or leaves nothing in flight and no bytes counted |
| RealtimeMeaning.SetupCodes | custom-server.js:384-490 | which close code each setup event sends, and that no other does |
| RealtimeMeaning.SetupHolds | custom-server.js:384-490 | which setup event drops the held frames and their byte counter, and that no other touches them |
| RealtimeMeaning.SetupPhases | custom-server.js:380-490 | how setup goes on after each event |
| RealtimeProtocol.StepKeepsInv | custom-server.js:270-490 | every event in every state keeps budgets, order, conservation and the one-in-flight rule |
| RealtimeLaws.ReachableInv | custom-server.js:270-490 | the invariant holds after any interleaving of events |
| RealtimeLaws.OrderAndConservation | custom-server.js:275-350 | deliveries are always a prefix of the eligible arrivals; while open and not refused nothing is lost: delivered, queued and held frames together are the arrivals in order; a ready session has no held frames |
| RealtimeLaws.BudgetsHold | custom-server.js:287-337 | processing bytes equal queued plus in-flight bytes and stay within budget, also the frame counts; held bytes never exceed their counter |
| RealtimeLaws.NothingAfterClose | custom-server.js:302-302 | once closed, no frame is handed over, whatever completes later |
| RealtimeLaws.OneAtATime | custom-server.js:295-310 | while a handler call is pending only its completion lets another frame through |
| RealtimeLaws.FlushNeverOverflows | custom-server.js:455-463 | the flush on ready never closes with 1009 and takes over every eligible held frame |
| RealtimeLaws.CounterExactUnlessRefused | custom-server.js:384-402 | a step keeps the held-byte counter exact if and only if it is not a refused key with bytes held |
| RealtimeLaws.CounterLeakExample | custom-server.js:385-385 | ten held bytes and a refused key leave an empty queue with counter ten |
| RealtimeLaws.EverythingDelivered | custom-server.js:295-310 | if handlers keep finishing, every eligible arrival of an open session is delivered |
| RealtimeSocket.Socket.DrainProcessingQueue | custom-server.js:295-310 | the while loop, up to its next await, is the recursive drain of the step system |
| RealtimeSocket.Socket.EnqueueFrame | custom-server.js:311-324 | the frame joins the work and starts a drain, or the socket closes with 1009 and its queue is dropped |
| RealtimeSocket.Socket.FlushHeld | custom-server.js:455-463 | breaking off once closed comes to the same as offering every held frame |
| RealtimeSocket.Socket.OnMessageEvent | custom-server.js:338-350 | every message keeps the invariant, delivers in order and nothing once closed; a frame is held or joins the work exactly when it breaks no limit; its flush never runs |
| RealtimeSocket.Socket.OnHandlerSettled | custom-server.js:303-308 | the continuation after an awaited handler call keeps the invariant, also after a close, which it then leaves silent |
| RealtimeSocket.Socket.OnRelayOpened | custom-server.js:441-465 | the session is ready and native unless closed or still to be configured; nothing is closed, and delivered plus queued frames are then all the held ones in order |
| RealtimeSocket.Socket.OnSessionCreated | custom-server.js:472-485 | the chat session is not native; delivered plus queued frames are then the held text frames in order |
| RetryPolicy.FirstMatchIsFirst | open-sse/config/runtimeConfig.js:240-269 | the rule found is the first in array order all of whose conditions hold; none is found exactly when none matches |
| RetryPolicy.FindMatchingSkipRule | open-sse/config/runtimeConfig.js:240-269 | the loop with its `has` flag finds that rule |
| RetryPolicy.AttemptsBounded | open-sse/executors/base.js:306-323 | no failure is granted more retries than the ceiling, or the largest configured entry |
| RetryPolicy.MaxAttemptsIs | open-sse/executors/base.js:306-323 | that bound is tight: one less than the ceiling, or without one the largest positive entry |
| RetryMeaning.MayRetryIff | open-sse/executors/base.js:306-323 | the attempts table: a retry rule grants up to the ceiling, or the entry of the status without one; with no rule the entry and the ceiling both bind and a header timeout gets none; a skip rule grants none |
| RetryMeaning.CapacityRuleMatches | open-sse/config/runtimeConfig.js:240-269 | all conditions of a rule bind, letter case aside; a rule without any, or with an unknown action, never matches |
| RetryMeaning.PassMeaning | open-sse/executors/base.js:499-587 | each verdict read off the upstream: tried again when the table grants it, no hook objects and the wait is not aborted; the next URL after an exception or a 429 that is not retried, not skipped and not the last; else returned or thrown |
| RetryMeaning.EventsMeaning | open-sse/executors/base.js:378-588 | the events of a pass: one dispatch, or two with the field stripped, at its URL; the rules see the answer that reaches them and the ordinary exceptions; settled are the stripped response and an answer not returned |
| RetryMeaning.RunMeaning | open-sse/executors/base.js:257-593 | every pass of every run is decided so, and dispatches twice exactly for a 400 that names a request field |
| RetryMeaning.GoodAnswerReturns | open-sse/executors/base.js:306-323 | a 200 without an entry or a rule is returned at once, whatever the ceiling |
| RetryEngine.Catch | open-sse/executors/base.js:547-587 | the decision on an exception: quota and caller aborts propagate, then retry, skip, next URL or throw, each if and only if its condition holds |
| RetryEngine.JudgeResponse | open-sse/executors/base.js:499-546 | the decision on a response: retried, moved on, or returned, each if and only if its condition holds; a discarded one is settled once, at its place in the trace |
| RetryEngine.RunPass | open-sse/executors/base.js:378-588 | one pass: one dispatch, or two exactly for a 400 naming a request field, and the right decision |
| RetryEngine.LogStep | open-sse/executors/base.js:378-514 | a pass extends the log rightly: an in-place retry keeps the URL and counts one more, a fallback starts the next URL at zero |
| RetryEngine.Execute | open-sse/executors/base.js:257-593 | for every upstream: each pass decides as specified and is the one its predecessor asked for; trace and dispatch count, also of a run that throws, are those of its passes; it ends inside the loop (the throw after it is unreachable); per-URL passes are at most 1 + the largest attempt count and at most the cap; responses discarded on status are settled exactly once before the next dispatch, all others never; a skip match is the last failure judged |
| RetryEngine.RunIsDetermined | open-sse/executors/base.js:257-593 | one upstream and one caller allow one run only: result, trace, dispatches, passes and log follow from them |
| RetryEngine.RunStep | open-sse/executors/base.js:378-588 | traces of passes compose: settlements, order, and skip-is-last carry over |
| RetryEngine.TotalBound | open-sse/executors/base.js:378-588 | passes over all URLs are bounded by URLs times the per-URL bound |
| CodexRetry.Execute | open-sse/executors/codex.js:710-785 | every call is a real run of the engine against its own upstream, and each further one is asked for by the reply before (one encrypted-reasoning recovery, overload retries up to the 503 entry); the reply and which responses this loop settles are determined by the calls; the dispatches are the sum over the runs and bounded by attempts + 2 calls |
| CodexRetry.OuterRunIsDetermined | open-sse/executors/codex.js:710-785 | the same for the outer loop: its calls, their runs, what they dispatched and settled, and the reply |
| CodexRetry.ReplyMeaning | open-sse/executors/codex.js:736-784 | the reply by what the peek said of the last call: its own response, too large, or unavailable, each if and only if |
| CodexRetry.CallMeaning | open-sse/executors/codex.js:718-784 | when a further call is made, and with which counters |
| CodexRetry.SettledMeaning | open-sse/executors/codex.js:736-784 | the responses settled are those inspected and found wanting, each once and in order |
| CodexRetry.SentBound | open-sse/executors/codex.js:710-785 | the dispatches of all calls together are at most the calls times what one engine run can send |
| CodexRetry.OneMoreCall | open-sse/executors/codex.js:718-784 | one call extends the record rightly and says whether its response is settled here |
| Records.SplitAppend | open-sse/executors/commandcode.js:253-261 | splitting text in pieces, keeping only the unfinished rest, gives the records of the whole text |
| Records.SplitMeaning | open-sse/executors/commandcode.js:253-256 | joining the records with separators gives the text back, and no record holds a separator |
| CommandCode.TrimMeaning | open-sse/executors/commandcode.js:163-169 | trimming cuts exactly the white space at both ends |
| CommandCode.LineMeaning | open-sse/executors/commandcode.js:163-169 | a line is parsed as its trimmed text, or as what follows `data:`; `[DONE]` and nothing are no event |
| CommandCode.ThrewIff | open-sse/executors/commandcode.js:230-278 | a read error surfaces exactly when fewer than 64 KiB and 16 frames came, all of them preamble |
| CommandCode.PrefixDecides | open-sse/executors/commandcode.js:239-272 | a verdict reached on a prefix of the window is the verdict on the stream |
| CommandCode.ScanMeaning | open-sse/executors/commandcode.js:257-272 | the line scan fails exactly on an error frame within the frame limit with only preamble frames before it, and reports that event |
| CommandCode.VerdictMeaning | open-sse/executors/commandcode.js:230-278 | the verdict is an error if and only if one of the first 16 frames of the 64 KiB window (or the last line of a short stream) is an error event with only preamble events before it |
| CommandCode.TrimIgnoresReturn | open-sse/executors/commandcode.js:163-169 | dropping the carriage return first does not matter to trimming |
| Preflight.InspectLines | open-sse/executors/commandcode.js:257-272 | the inner loop scans exactly the complete lines and keeps the rest |
| Preflight.Inspect | open-sse/executors/commandcode.js:230-278 | the chunk loop reaches the verdict of the byte sequence, replays the original body, or rethrows the read error |
| Preflight.ReplayBody | open-sse/executors/commandcode.js:175-210 | the replay stream is the chunks already read, then the rest, then the original ending |
| Preflight.ChunkingIsIrrelevant | open-sse/executors/commandcode.js:230-278 | two chunkings of the same bytes get the same verdict, and a replay is byte for byte the original |
| SseTransducer.OneTerminal | open-sse/executors/commandcode.js:288-370 | a completed stream is content chunks and then exactly one of `[DONE]` or one failure record |
| SseTransducer.CompletesIff | open-sse/executors/commandcode.js:318-348 | processing ends finished and unfailed if and only if every frame is accepted and only the last is a finish |
| SseTransducer.DoneIff | open-sse/executors/commandcode.js:288-370 | `[DONE]` ends the stream if and only if every frame was accepted and the last one alone was a finish |
| SseTransducer.OutputIs | open-sse/executors/commandcode.js:288-370 | the whole output of a stream: what the translator makes of the accepted frames, in order and with its state threaded through, then `[DONE]` or the message of the first failure |
| SseTransducer.Transformer.ProcessLine | open-sse/executors/commandcode.js:318-348 | one line changes state and output as the fold over lines says; a keepalive follows only a held-back piece of tool input, at most every fifteen seconds |
| SseTransducer.Transformer.Transform | open-sse/executors/commandcode.js:350-358 | a chunk processes its complete lines and buffers the rest |
| SseTransducer.Transformer.Flush | open-sse/executors/commandcode.js:359-369 | the end of the stream processes the last line and closes |
| SseTransducer.ConvertStream | open-sse/executors/commandcode.js:288-370 | for every chunking and every clock the visible output is the content of the whole text in order and its one terminal record |
| KiroSchemaLaws.RequiredIff | open-sse/config/kiroConstants.js:130-157 | a name is required afterwards if and only if it is declared and demanded by the own list, by some `allOf` branch, or by all branches of `oneOf` or `anyOf` |
| KiroSchemaLaws.RequiredSound | open-sse/config/kiroConstants.js:115-159 | keys that meet what the source schema asks of keys (its own list, all branches of `allOf`, some branch of `anyOf` and of `oneOf`) include every name required afterwards |
| KiroSchemaLaws.AcceptedHasRequired | open-sse/config/kiroConstants.js:115-159 | every object the source schema accepts has every name required afterwards, whatever its other keywords say of values, with exactly one `oneOf` branch accepting (section 6.5.3 of JSON Schema Validation 2020-12, section 10.2.1 of JSON Schema Core 2020-12) |
| KiroSchemaLaws.UnionKeepsItsTag | open-sse/config/kiroConstants.js:145-150 | two branches that require the same key and differ in its value only: the union accepts such objects and the key stays required |
| KiroSchemaLaws.PropertySurvives | open-sse/config/kiroConstants.js:98-107 | every declared property stays, cleaned, also when it is named like an unsupported keyword |
| KiroSchemaLaws.BranchPropertySurvives | open-sse/config/kiroConstants.js:133-137 | properties of root combinator branches are kept |
| KiroSchemaLaws.CleanSupported | open-sse/config/kiroConstants.js:92-108 | cleaning leaves no unsupported keyword in schema position at any depth |
| KiroSchemaLaws.CleanIdentity | open-sse/config/kiroConstants.js:92-108 | cleaning changes nothing in a supported schema |
| KiroMeaning.PositionsStay | open-sse/config/kiroConstants.js:92-108 | every position reached through supported keywords, names and arrays keeps its cleaned value, and none is added; so scalars stay as they are |
| KiroMeaning.RootKeywords | open-sse/config/kiroConstants.js:115-127 | the other keywords of the root stay, the type is an object, and nothing else is added |
| KiroMeaning.KeywordsGone | open-sse/config/kiroConstants.js:72-90 | none of the seventeen unsupported keywords is left at the root |
| KiroMeaning.FirstBranchWins | open-sse/config/kiroConstants.js:130-137 | a property the root does not declare has the form of its first branch, `allOf` before `oneOf` before `anyOf` |
| KiroSchemaLaws.NormalizedSupported | open-sse/config/kiroConstants.js:115-159 | the normalised schema uses supported keywords only |
| KiroSchemaLaws.Parts | open-sse/config/kiroConstants.js:155-159 | the required array is exactly the list of collected names that are declared, as strings and without repeats |
| KiroSchemaLaws.NormalizeFixpoint | open-sse/config/kiroConstants.js:115-159 | a schema already in the supported form is left alone |
| KiroSchemaLaws.Idempotent | open-sse/config/kiroConstants.js:115-159 | normalising twice is normalising once |
| KiroNormalizer.IntersectRequired | open-sse/config/kiroConstants.js:145-150 | the deleting loop keeps exactly the names every branch requires |
| KiroNormalizer.MergeProperties | open-sse/config/kiroConstants.js:133-137 | the first declaration of a property wins |
| KiroNormalizer.NormalizeKiroToolSchema | open-sse/config/kiroConstants.js:115-159 | the loops compute the rewrite |
| CodexPeek.FirstPattern | open-sse/executors/codex.js:236-244 | the pattern that some value mentions while no earlier one in the list is mentioned; none exactly when none is |
| CodexPeek.StrongestIs | open-sse/executors/codex.js:246-314 | context beats account beats retry, and among equals the last frame decides |
| PeekMeaning.FrameMeaning | open-sse/executors/codex.js:236-314 | which frame is a context, account or overload failure, by its flags and the patterns it mentions, and what is reported of it |
| PeekMeaning.GoesMeaning | open-sse/executors/codex.js:821-855 | reading goes on exactly while nothing failed, no other output came, the text can still be the overload message, and fewer than 256 KiB were looked at |
| CodexPeek.ReplayBody | open-sse/executors/codex.js:503-542 | the replay is the chunks read, the rest of the reader, and its own ending or error |
| CodexPeek.InspectBatch | open-sse/executors/codex.js:830-842 | the frame loop keeps the accumulated text and the strongest problem of all frames |
| CodexPeek.InspectChunk | open-sse/executors/codex.js:821-855 | one chunk: what is classified and whether to stop |
| CodexPeek.ReadHead | open-sse/executors/codex.js:806-855 | reads up to the first reason to stop, within 256 KiB inspected; on every continued turn the accumulated text is a prefix of the overload message, letter case aside |
| CodexPeek.Peek | open-sse/executors/codex.js:793-889 | overload only when the whole accumulated text is the known message and no context failure was seen; else the strongest problem; else the original body byte for byte with its ending |
| PeekMeaning.VerdictMeaning | open-sse/executors/codex.js:793-889 | the result by the frames read: the overload message as the whole text, else the failure of the frame that decides, else the original body |
| PeekMeaning.ReportIff | open-sse/executors/codex.js:793-889 | context is reported exactly when some frame is a context failure; account exactly when none is and some explicit error mentions an account pattern; overload exactly when neither and one mentions a retry pattern |
| ChatGptStream.DeltasAreTheAnswer | open-sse/executors/chatgpt-web-http.js:976-1032 | with growing snapshots, text sent before plus the deltas make up the final answer unless the message stalled |
| ChatGptStream.DeltasAreTheAnswerIff | open-sse/executors/chatgpt-web-http.js:976-1046 | for a message with growing snapshots the deltas concatenate to the final answer if and only if it did not go live after its text with no parts following |
| ChatGptStream.EveryMessageDelivers | open-sse/executors/chatgpt-web-http.js:976-1032 | also for a message superseded later: its deltas are its last text if it went live without stalling, and nothing otherwise |
| ChatGptMeaning.AnswerIsLongest | open-sse/executors/chatgpt-web-http.js:976-1032 | the answer of a message is the longest text it showed, the first among equals |
| ChatGptMeaning.LastChunk | open-sse/executors/chatgpt-web-http.js:1034-1061 | the last chunk has the whole answer and the images, or the failure that cut the stream |
| ChatGptMeaning.DeltasFit | open-sse/executors/chatgpt-web-http.js:1022-1046 | each delta is the new end of the answer it comes with |
| ChatGptMeaning.OffersIff | open-sse/executors/chatgpt-web-http.js:1008-1017 | images count when a message is finished, has no status, or is being written |
| ChatGptMeaning.LiveExample | open-sse/executors/chatgpt-web-http.js:976-1046 | two snapshots with a text, an image and a text: both deltas, then the answer with its image |
| ChatGptStream.StalledIff | open-sse/executors/chatgpt-web-http.js:984-1034 | the stall is readable off the events |
| ChatGptStream.StallExample | open-sse/executors/chatgpt-web-http.js:984-989 | a finished snapshot followed by a bare in-progress event: the answer is never sent |
| ChatGptStream.EchoesAreSilent | open-sse/executors/chatgpt-web-http.js:894-1046 | text belongs to messages seen in progress, or is the last message's at the very end: a superseded echo contributes nothing |
| ChatGptStream.PointersAreFirstSeen | open-sse/executors/chatgpt-web-http.js:998-1017 | image pointers are collected once each, in first-seen order |
| ChatGptStream.FirstSeenMeaning | open-sse/executors/chatgpt-web-http.js:1008-1016 | first-seen order: no repeats, nothing lost or added, earlier ones keep their place |
| ChatGptStream.AddMany | open-sse/executors/chatgpt-web-http.js:1009-1015 | the Map update loop adds unseen pointers in first-seen order; each pointer offered gets the message id if it had none, and keeps the one it had |
| ChatGptStream.PointersNameFirstMessage | open-sse/executors/chatgpt-web-http.js:1008-1016 | at any point an image names the first message with an id that offered it |
| ChatGptStream.Extractor.OnMessage | open-sse/executors/chatgpt-web-http.js:970-1032 | one assistant event changes the generator's variables and yields as specified |
| ChatGptStream.Extractor.ExtractContent | open-sse/executors/chatgpt-web-http.js:894-1061 | the generator yields exactly the specified chunks, for all event sequences |
| ChatGptBuilder.CommonPrefixLength | open-sse/executors/chatgpt-web-http.js:2793-2798 | the length of the longest common prefix |
| ChatGptBuilder.Builder.EmitRenderedAnswer | open-sse/executors/chatgpt-web-http.js:1358-1368 | the text sent becomes the rendered answer when that strictly extends it, else nothing is sent |
| ChatGptBuilder.SentIsAnAnswer | open-sse/executors/chatgpt-web-http.js:1358-1368 | after any answers the client holds one of them, and nothing sent is lost |
| ChatGptBuilder.LastAnswerArrivesIff | open-sse/executors/chatgpt-web-http.js:1358-1368 | the client ends with the last answer if and only if what was sent before is a prefix of it |
| ChatGptBuilder.GrowingAnswersArrive | open-sse/executors/chatgpt-web-http.js:1358-1368 | answers that only grow arrive: the client ends with the last one |
| M365Frames.FramesAppend | open-sse/executors/copilot-m365-frames.js:64-69 | splitting in two steps, carrying the rest, gives the frames of the whole text |
| M365Frames.SplitFrames | open-sse/executors/copilot-m365-frames.js:64-69 | the non-empty records and the unfinished rest |
| M365Frames.SplitEncoded | open-sse/executors/copilot-m365-frames.js:52-69 | splitting concatenated encoded frames returns their JSON in order with empty rest (section 7 of RFC 8259: U+001E is escaped in JSON text) |
| M365Frames.FramesMeaning | open-sse/executors/copilot-m365-frames.js:64-69 | no frame is empty or holds a separator |
| M365Frames.ExtractBotText | open-sse/executors/copilot-m365-frames.js:138-156 | the text of the last bot message that is not progress |
| M365Frames.IncrementalDelta | open-sse/executors/copilot-m365-frames.js:158-163 | the delta completes the previous text to the next when that extends it, else it is the next text |
| M365Frames.DeltasAreTheTextIff | open-sse/executors/copilot-m365-frames.js:178-184 | the deltas add up to the accumulated text if and only if every snapshot extends its predecessor |
| M365Frames.LastSpokenIs | open-sse/executors/copilot-m365-frames.js:138-156 | the message whose text counts is the last one that is not progress, by the bot or unnamed, with a text |
| M365Frames.TextMeaning | open-sse/executors/copilot-m365-frames.js:178-184 | the accumulated text is that of the last frame that restates it and everything added at the cursor since |
| M365Frames.FailureMeaning | open-sse/executors/copilot-m365-web.js:140-176 | only a named error fails the handshake; at completion any error does, an empty text aside |
| M365Socket.ReachableInv | open-sse/executors/copilot-m365-web.js:62-194 | after any events: content only, then one terminal; exactly one chat sent if and only if a handshake reply was accepted |
| M365Socket.SettledIsFinal | open-sse/executors/copilot-m365-web.js:81-101 | once settled, nothing is emitted or sent |
| M365Socket.ChunkingIsIrrelevant | open-sse/executors/copilot-m365-web.js:134-177 | any chunking of the incoming text leaves the same state as parsing all its frames |
| M365Socket.ConversationFate | open-sse/executors/copilot-m365-web.js:134-177 | for JSON frames in any chunks the stream fails, completes or stays open as the handshake reply and the first completion frame say |
| M365Socket.StreamDelivers | open-sse/executors/copilot-m365-web.js:154-159 | the reader gets exactly the deltas of the frames, in order |
| M365Socket.ReadsTheTextIff | open-sse/executors/copilot-m365-web.js:154-159 | before completion, what the reader got is the bot's text if and only if its snapshots only grew |
| M365Socket.TurnReadsTheAnswerIff | open-sse/executors/copilot-m365-web.js:81-177 | over a whole turn with a good completion, final result included, the reader has the answer if and only if the snapshots only grew |
| M365Socket.ResultMeaning | open-sse/executors/copilot-m365-web.js:160-176 | the result to fall back to is the last one that is not empty |
| M365Socket.EventMeaning | open-sse/executors/copilot-m365-web.js:81-194 | opening sends the handshake; an error, a timeout, an abort or a close fails an unsettled stream |
| M365Socket.FrameMeaning | open-sse/executors/copilot-m365-web.js:140-176 | only a refused handshake or a completion settles the stream; the handshake reply sends one chat; any other frame sends exactly its delta |
| M365Socket.WebSocketChat.OnMessage | open-sse/executors/copilot-m365-web.js:134-177 | a message is split, its frames handled until settled, the rest buffered |
| M365Socket.WebSocketChat.OnClose | open-sse/executors/copilot-m365-web.js:182-189 | a close fails an unsettled stream and leaves a settled one alone; it never completes one |
| AppServerTurn.FinishOutput | open-sse/executors/codex-app-server.js:150-170 | finishing an open stream ends it with one terminal record and the done marker, with or without an error, and takes back nothing |
| AppServerTurn.FinishFollows | open-sse/executors/codex-app-server.js:150-170 | finishing keeps the invariant and is silent the second time |
| AppServerTurn.EndTurnFollows | open-sse/executors/codex-app-server.js:173-183 | an early end keeps the invariant, and its interrupt is sent at once or awaited exactly as the ids require |
| AppServerTurn.CancelFollows | open-sse/executors/codex-app-server.js:190-194 | a reader going away keeps the invariant and leaves the output exactly as it was |
| AppServerTurn.LearnFollows | open-sse/executors/codex-app-server.js:135-142 | a turn id keeps the invariant; the interrupt stays exact if and only if it is not an empty id after an early end |
| AppServerTurn.ToolFollows | open-sse/executors/codex-app-server.js:231-246 | a tool call is the last thing of its stream, at most once |
| AppServerTurn.ReplyFollows | open-sse/executors/codex-app-server.js:196-208 | every start-up reply in every state keeps the invariant and leaves a sealed output alone |
| AppServerTurn.NotificationFollows | open-sse/executors/codex-app-server.js:209-230 | every notification in every state keeps the invariant and leaves a sealed output alone |
| AppServerTurn.StepFollows | open-sse/executors/codex-app-server.js:108-256 | every reply, notification, abort, timeout and cancel keeps the invariant, changes no sealed output, and keeps the interrupt exact unless an empty id comes too late |
| AppServerTurn.TurnIsWellFormed | open-sse/executors/codex-app-server.js:108-256 | in every run the stream is a role chunk, content, at most one tool call, one terminal record and `[DONE]`, or an error record possibly without role, or a prefix when the reader left; the interrupts are none, or one for the very turn that was ended early: the id known then, else the first one learnt afterwards; an ended turn keeps the socket only while it waits for that id |
| TurnMeaning.ContentIsWhatWasHeard | open-sse/executors/codex-app-server.js:209-230 | the stream carries exactly the non-empty deltas that came while it was open and listening, as text or reasoning, in order |
| TurnMeaning.EndingIs | open-sse/executors/codex-app-server.js:150-246 | which event ends an open stream, and with which records: finish reasons, tool call, error message |
| TurnMeaning.ReplyMoves | open-sse/executors/codex-app-server.js:196-208 | what each reply of the start-up sequence moves |
| TurnMeaning.GraceCloses | open-sse/executors/codex-app-server.js:182-182 | after the grace period an ended turn gives its socket up |
| AppServerTurn.SanitiseMeaning | open-sse/executors/codex-app-server.js:12-18 | an error is shown by the first line of its redacted text, at most five hundred characters |
| AppServerTurn.NothingAfterSeal | open-sse/executors/codex-app-server.js:110-118 | nothing is enqueued once sealed |
| AppServerTurn.InterruptsAre | open-sse/executors/codex-app-server.js:130-184 | from any open state, the interrupts of a run are exactly the one for the turn its early end concerns |
| AppServerTurn.InterruptedIff | open-sse/executors/codex-app-server.js:130-184 | an interrupt goes out if and only if the caller did not abort beforehand, the thread has an id, and the turn ended early got an id that is not empty |
| AppServerTurn.ExactUnlessIdLost | open-sse/executors/codex-app-server.js:135-142 | a step keeps the interrupt exact if and only if it does not bring an empty id after an early end |
| AppServerTurn.ExactThroughoutIff | open-sse/executors/codex-app-server.js:130-184 | along a run the interrupt is exact at every point if and only if no empty id comes after the early end |
| AppServerTurn.EmptyIdLosesInterrupt | open-sse/executors/codex-app-server.js:135-142 | an empty turn id uses up the pending interrupt |
| AppServerTurn.ErrorShownIff | open-sse/executors/codex-app-server.js:150-170 | a reported error ends the stream with an error record if and only if its sanitised message is not empty; otherwise like a finished answer |
| AppServerTurn.SanitisedEmptyIff | open-sse/executors/codex-app-server.js:12-18 | a sanitised message is empty if and only if the redacted text is empty or begins with a line break |
| AppServerTurn.HiddenErrorExample | open-sse/executors/codex-app-server.js:12-18 | an error message that begins with a line break ends the stream like a finished answer |
| AppServerStream.TurnStream.Handle | open-sse/executors/codex-app-server.js:108-256 | every callback on the closure variables, at any time, is that step: the output only grows, not at all once sealed, and at most one interrupt is ever sent |
| AntigravityContents.NormalizeFilteredContents | open-sse/executors/antigravity.js:122-131 | no empty turn, no equal neighbours, and every role/part pair of the non-empty turns kept in order |
| AntigravityContents.PairsMeaning | open-sse/executors/antigravity.js:122-131 | a part stays exactly when a turn with a role holds it |
| AntigravityContents.TidyIsCanonical | open-sse/executors/antigravity.js:122-131 | at most one list has these properties, so they determine the result |
| AntigravityContents.Idempotent | open-sse/executors/antigravity.js:122-131 | merging twice is merging once, and a tidy list is left alone |
| AntigravityTools.DropRepeats | open-sse/executors/antigravity.js:356-363 | one declaration per name, the first one, in the order of first appearance |
| AntigravityTools.FirstListComesFirst | open-sse/executors/antigravity.js:356-363 | of two lists joined, every declaration kept from the first one stands before those of the second only |
| AntigravityTools.Prune | open-sse/executors/antigravity.js:391-402 | every native tool survives, then the first client tools that fit, and a short list stays as it is; exactly forty remain of more than forty |
| AntigravityTools.DistinctFit | open-sse/executors/antigravity.js:391-398 | natives with distinct names cannot exceed the native list, so the cap is met |
| AntigravityCloak.CloakTools | open-sse/executors/antigravity.js:664-710 | renamed client tools first, then decoys, in their order and with unique names; the map holds exactly the renamed names and leads each back |
| AntigravityCloak.DeclarationsMeaning | open-sse/executors/antigravity.js:676-699 | client tools are declared in their order, native ones as they are, others with the suffix and nothing else changed; for Copilot those the decoys cover are left out |
| AntigravityCloak.NativeNotSuffixed | open-sse/executors/antigravity.js:697-699 | no renamed name collides with a native or decoy name |
| AntigravityCloak.UncloakIff | open-sse/executors/antigravity.js:695-740 | the map undoes a name in the history if and only if it is native or a renamed client declaration |
| AntigravityCloak.CallsStayDeclaredIff | open-sse/executors/antigravity.js:680-740 | a call of a declared client tool still names a declared tool, if and only if it is not Copilot's use of the extra decoy |
| AntigravityCloak.ExtraDecoyExample | open-sse/executors/antigravity.js:680-740 | Copilot declaring and calling the extra decoy: the call names nothing declared and is not undone |
| AccountRotation.Rotation.PickAccount | open-sse/executors/accountRotation.js:58-70 | the loop picks the first ready account from the pointer on, else the one at it, and moves the pointer behind the pick |
| AccountRotation.ChoiceIsFirst | open-sse/executors/accountRotation.js:58-70 | no ready account lies between the pointer and the pick; an unready pick means that none is ready |
| AccountRotation.UnreadyOnlyAsLastResort | open-sse/executors/accountRotation.js:66-69 | an unready account is picked only when none is ready |
| AccountRotation.NoStarvation | open-sse/executors/accountRotation.js:58-70 | an account that stays ready is picked within as many picks as there are accounts, whatever the others do |
| AccountRotation.BackoffMonotone | open-sse/executors/accountRotation.js:72-79 | backoff is nondecreasing in consecutive failures |
| AccountRotation.Backoff | open-sse/executors/accountRotation.js:72-79 | backoff lies between thirty and sixty seconds |
| AccountRotation.BackoffIs | open-sse/executors/accountRotation.js:72-79 | thirty seconds after the first failure, sixty after any further one |
| AccountRotation.Account.MarkCooldown | open-sse/executors/accountRotation.js:72-79 | the account stays unready for at least thirty seconds and is ready after sixty-one |

## Left out

- Flattener: copying payload files, its directory-cycle and link errors, and the other steps of the build script.
- Flattener: directory listings are taken as sorted and package names as valid; a manifest that is present but cannot be parsed is not modelled.
- CopyRuntimeModules.Run: of several broken files the contract does not say which one is reported.
- Realtime: what the session does with a frame, its replies, and usage settlement; a handler call that never returns simply stays in flight.
- RetryPolicy.FindMatchingSkipRule: lower-casing covers ASCII letters; statuses and kinds are already numbers and names.
- RetryEngine.Execute: delays, header timers and request building are upstream choices; a response dropped because reading its error body threw is not settled by the source, so settlement is stated for status-driven discards only.
- RetryEngine.Execute: header-timeout resolution per request, relay streams and `sweep`, which the loop only passes on.
- CodexRetry.Execute: the response given up for encrypted-reasoning recovery is not settled by the source; the recovery's body rewrite and image prefetching are not modelled; each call meets an upstream of its own.
- CommandCode: characters stand for bytes in the 64 KiB window; UTF-8 decoding, JSON parsing and the event translator are parameters.
- KiroSchema: objects are unordered maps, so the order of JSON keys is not modelled; what keywords other than `required` and the combinators say of an object is a parameter; an array given as the root schema counts as an empty object.
- CodexPeek.Peek: a response that is not ok or has no body is passed on before any reading; independence of chunking is not claimed, since the source tests for other output once per batch; frame splitting and parsing are parameters.
- ChatGptStream: metadata, conversation ids, hand-off and resume events, image downloading and polling.
- ChatGptBuilder.Builder.EmitRenderedAnswer: text cleaning is a parameter; `appendFinalAnswer` and heartbeats are not modelled.
- M365Socket: keepalive timers, message text of errors, and a reader that cancels while the socket still runs.
- AppServerTurn: request payloads, usage numbers and reasoning effort; an exception thrown while enqueuing; timers are events that may come at any time.
- AntigravityContents.NormalizeFilteredContents: other fields of a turn, which the first turn of a merge keeps.
- AntigravityTools.DropRepeats: names are already sanitised; schema cleaning and description limits are not modelled.
- AntigravityCloak.CloakTools: tool groups are given as one list of declarations.
- AccountRotation.Rotation.PickAccount: an empty account list, for which the source has no answer.
- Access control, token refresh, header building, menus, dashboard, catalogues and provider tables: no algorithm beyond single branches.
