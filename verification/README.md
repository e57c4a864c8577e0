# Tracely: a verified model of replay, tenancy and the merge gate

Tracely records what an agent does in production, replays it hermetically in CI, and blocks merges on the
verdict. This project models the parts of it whose promises span many calls, and proves those promises
for every input, run or interleaving.

- **Hermetic replay** (`Replay`, `ReplayQueues`, `BundleReplay`, `FixtureScope`, `Providers`). A recorded bundle becomes
  per-key queues that tool calls, LLM calls and patched provider clients consume. The queues are a class
  updated in place and proved against a flat list of recorded entries; conservation, out-of-order and
  in-order faithfulness are theorems about that list, and `BundleReplay` tells them of the bundle's own fields.
  `Providers` is the record and rebuild round trip.
- **Run context and streams** (`RunContext`, `StreamRecorder`). Nested `trace(...)` blocks against lexical
  scoping; a streamed reply's span is closed exactly once.
- **The merge gate** (`Agents`, `Polling`, `Gate`). Which agents are gated, how a verdict is obtained under one shared
  budget, and the exit code.
- **Accounts** (`AccountsSpec` gives each operation as a function on the tables, `Accounts` performs it row
  by row, `AccountsGrants` says when each goes through and what it leaves, told of the rows alone, and
  `AccountsAccess`, `AccountsInvariants`, `AccountsCaps` and `AccountsTenancy` prove what every run keeps).
  `GetOrCreate` and `InviteRace` are the two operations that race, as state machines over their steps.
  `PasswordReset` is grants and session revocation, `ClerkUpsert` the Clerk path, `Evaluators` the
  catalog seeding, `RateLimit` the brake in front of the routes.
- **The migration that made organizations** (`Backfill` holds the loops, `BackfillSpec` what they should
  leave row by row, `BackfillTheorems` who can reach what before and after, `MigrationSound` when the result
  meets the invariants that `AccountsInvariants` keeps from then on).

Where code and prose disagree the model follows the code, and says what holds:

- A trace object "resets on exit", but has one reset slot: re-entered through `with` while open it leaves
  its fields behind, exactly when `RunContext.ReentryLeaks` says. Decorated functions are not affected.
- Gates are all started before any is awaited, but they are awaited in turn with what is left of one budget.
  A gate that hangs, or is read slowly, takes those behind it along even if they passed long ago, so results
  and exit code can depend on the order of the agents (`Gate.OrderMatters`). The merge is never let through
  wrongly in any order (`Gate.NeverFalselyGreen`). Exactly when the exit code depends on the order is
  `Gate.CodeOrderFreeExactly`, and `Gate.FinishedCodeExactly` in terms of the lengths of the reads; the same for
  what is learnt of each gate is `Polling.OrderFreeExactly`, `Polling.OrderFreeOnSchedule` and `Polling.FinishedOrderFree`.
- The rate limit is described as a 60 s window; the window is anchored at its first hit, so a sliding
  interval can see 2L - 1 requests (`RateLimit.SlidingBound`, `RateLimit.BoundAttained`), and any number whose
  counts are lost on their way back. INCR and EXPIRE are two commands: a counter whose EXPIRE is lost refuses
  for ever once L are counted (`RateLimit.NoExpiryExactly`, `RateLimit.LostExpireLocksOut`).
- A personal account "cannot be joined, ever", but acceptance does not check the kind; it holds in every
  run of the operations because no pending invitation ever targets one (`AccountsInvariants.PendingMeansCompany`).
  The migration can break exactly that (`BackfillTheorems.InviteIntoPersonal`, `MigrationSound.MigrationIsSound`).
- The second select of get-or-create can come back empty after all, exactly when another unique constraint
  fires (`GetOrCreate.FailsExactlyOnForeignClash`); on the Clerk path that is a cut slug
  (`ClerkUpsert.FailsExactly`).
- A Clerk principal's organization need not be its workspace's after the migration
  (`ClerkUpsert.PrincipalOwnsSpace`).

## Model

| member | source | states |
|---|---|---|
| `ReplayQueues.FixtureStore.constructor` | sdk/tracely_sdk/__init__.py:1207-1234 | the queue of a tool name or model is what the bundle records under it, in order: listed elements with their own args (input for an LLM call, args if it has none), output and error, or the one output of the legacy form |
| `ReplayQueues.StoreHolds` | sdk/tracely_sdk/__init__.py:1207-1234 | the same of the flat recording, told of the fields of the bundle |
| `ReplayQueues.FixtureStore.FindInQueue` | sdk/tracely_sdk/__init__.py:1286-1293 | the position consumed is the leftmost args-match if args are given and one exists, else the head |
| `ReplayQueues.FixtureStore.Pop` | sdk/tracely_sdk/__init__.py:1280-1293 | popping a queue in place serves, and removes, exactly what the flat recording says; nothing when nothing is recorded |
| `ReplayQueues.FixtureStore.PopAny` | sdk/tracely_sdk/__init__.py:1376-1385 | the order fallback pops the head of the first non-empty queue, keys in order of first recording |
| `ReplayQueues.FixtureStore.Serve` | sdk/tracely_sdk/__init__.py:1513-1522 | a patched client is served by its model's queue, then by the fallback |
| `ReplayQueues.FixtureStore.Unconsumed` | sdk/tracely_sdk/__init__.py:1255-1262 | lists exactly the keys with entries left and how many; empty exactly when everything was consumed |
| `ReplayQueues.PickInQueue` | sdk/tracely_sdk/__init__.py:1286-1293 | the leftmost match in a queue is the leftmost match of that key in the whole recording, and removing either is removing both |
| `ReplayQueues.FallbackAgrees` | sdk/tracely_sdk/__init__.py:1382-1384 | the scan over dictionary keys picks the same entry as a scan over the recording |
| `Replay.Conservation` | sdk/tracely_sdk/__init__.py:1280-1293 | after any mix of calls, entries served plus entries left are the bundle as a multiset: none lost, none served twice |
| `Replay.StepFrame` | sdk/tracely_sdk/__init__.py:1286-1293 | a call shortens only the queue it was served from |
| `Replay.UntouchedQueue` | sdk/tracely_sdk/__init__.py:1280-1293 | a queue no call of the run names is as it was after the run |
| `Replay.OutOfOrderReplay` | sdk/tracely_sdk/__init__.py:1289-1293 | if the run's tool calls are a permutation of the recorded ones, all with args, each is served a recording with its own args, none goes live and no tool entry is left, whatever LLM calls lie between |
| `Replay.EqualCallsKeepOrder` | sdk/tracely_sdk/__init__.py:1290-1292 | in such a run tool calls equal to each other get their recordings in recorded order |
| `Replay.InOrderReplay` | sdk/tracely_sdk/__init__.py:1280-1293 | calls that repeat a key's recording, from a seam or from a patched client, are served that recording in order, whatever other calls lie between; for an LLM key no patched client may run out of its own model's entries |
| `Replay.InOrderReplies` | sdk/tracely_sdk/__init__.py:1305-1327 | ... so each such call raises the recorded error or returns the recorded output, and never runs live |
| `Replay.PickAnyIsFirst` | sdk/tracely_sdk/__init__.py:1382-1385 | the fallback serves the head of a queue, every queue first recorded before it being empty |
| `Replay.ProviderPrefersItsModel` | sdk/tracely_sdk/__init__.py:1520 | a patched client never uses the fallback while its own model's queue has entries |
| `Replay.FallbackServes` | sdk/tracely_sdk/__init__.py:1376-1385 | once that queue is empty it is served the head of the first LLM queue, in order of recording, that is not, and goes live exactly when none is left |
| `Replay.ProviderCount` | sdk/tracely_sdk/__init__.py:1513-1532 | if only patched clients consume LLM entries, exactly min(calls, recorded) of their calls are served and the rest go live |
| `BundleReplay.RerunInOrder` | sdk/tracely_sdk/__init__.py:1286-1327 | from a bundle to its rerun: the n-th call to a key returns the n-th output recorded under it, or raises the n-th error |
| `BundleReplay.RerunPermuted` | sdk/tracely_sdk/__init__.py:1286-1327 | ... and in any permutation of the recorded tool calls the n-th of several equal calls meets the n-th recording with its name and args |
| `FixtureScope.OnlyCurrentStore` | sdk/tracely_sdk/__init__.py:1238-1252 | a program consumes no store but the active one |
| `FixtureScope.BlockIsIsolated` | sdk/tracely_sdk/__init__.py:1238-1252 | after a block, left normally or by an exception and with or without a bundle, the enclosing store is active again and as full as before |
| `FixtureScope.OwnCallsConsume` | sdk/tracely_sdk/__init__.py:1238-1252 | a block's store is consumed by the block's own calls in order, whatever inner blocks and caught exceptions lie between |
| `FixtureScope.OwnCallsAnswered` | sdk/tracely_sdk/__init__.py:1238-1252 | ... and the replies recorded under the block's store are those of that run, in order, and no others |
| `FixtureScope.BlockServesItsBundle` | sdk/tracely_sdk/__init__.py:1238-1252 | a block starts from its own bundle: its calls meet what a run over that bundle delivers |
| `FixtureScope.NoBundleIsLive` | sdk/tracely_sdk/__init__.py:1276-1282 | outside every bundle each call runs live |
| `FixtureScope.CallRaises` | sdk/tracely_sdk/__init__.py:1305-1327 | a call raises exactly when a recorded error is served or its live function fails, and a caught exception goes no further |
| `FixtureScope.RaisePropagates` | sdk/tracely_sdk/__init__.py:1238-1252 | an exception skips what follows it and leaves every block it was raised in |
| `Providers.CaptureAnthropic` | sdk/tracely_sdk/anthropic.py:32-51 | what is recorded is an assistant's message with every block in order, texts and tool uses in full and others by their kind, the stop reason if there is one, and the names of the tool uses in order |
| `Providers.ReconstructAnthropic` | sdk/tracely_sdk/__init__.py:1442-1473 | the block-appending loops compute the rebuilt reply of the two recorded shapes |
| `Providers.AnthropicReads` | sdk/tracely_sdk/__init__.py:1442-1473 | whatever was recorded is read so: every dictionary of a list as a tool use or a text, else the content as one text and then every call, with what is missing empty and arguments parsed if they parse |
| `Providers.AnyShape` | sdk/tracely_sdk/__init__.py:1388-1402 | a message reads the same bare, printed, nested under its key, or last in a list |
| `Providers.NoMessage` | sdk/tracely_sdk/__init__.py:1388-1402 | plain text, and any value that is neither a dictionary nor a list, is the content of a message; a list without a dictionary is an empty one |
| `Providers.AnthropicRoundTrip` | sdk/tracely_sdk/__init__.py:1442-1473 | rebuilding what the drop-in recorded gives the provider's blocks back exactly when all are text or tool_use; the stop reason always survives |
| `Providers.CanonicalAgreesWithNative` | sdk/tracely_sdk/__init__.py:1450-1472 | the canonical shape rebuilds the same blocks as the native one exactly when the reply is at most one non-empty text followed by tool uses |
| `Providers.TextsInOrder` | sdk/tracely_sdk/__init__.py:1450-1472 | the canonical content is the texts of the reply joined in order |
| `Providers.CaptureOpenAi` | sdk/tracely_sdk/openai.py:37-51 | what is recorded, kept as JSON or printed, rebuilds to the provider's content and tool calls for every faithful JSON printer |
| `Providers.OpenAiRoundTrip` | sdk/tracely_sdk/__init__.py:1405-1428 | any JSON that records the choice, printed or not, gives back its content and every tool call in order and in full, no calls coming back as none; the finish reason is always rebuilt as stop |
| `Providers.OpenAiReads` | sdk/tracely_sdk/__init__.py:1405-1428 | whatever was recorded is read so: its content, and every call that is a dictionary, in order, with what is missing empty |
| `RunContext.Trace.Enter` | sdk/tracely_sdk/__init__.py:603-614 | sets the context to its fields merged over the enclosing ones and overwrites its one reset slot |
| `RunContext.Trace.Exit` | sdk/tracely_sdk/__init__.py:616-625 | puts back what the slot holds and empties it, on every way out |
| `RunContext.Trace.constructor` | sdk/tracely_sdk/__init__.py:596-601 | keeps the fields that are neither null nor an empty dictionary |
| `RunContext.Scoped` | sdk/tracely_sdk/__init__.py:603-642 | in every program that re-enters no open object, context and slots are restored on every exit and each span reads the merge of exactly the frames around it |
| `RunContext.InnermostWins` | sdk/tracely_sdk/__init__.py:604-606 | a field or metadata key has the value of the innermost open frame that sets it |
| `RunContext.UnsetComesFromOutside` | sdk/tracely_sdk/__init__.py:604-606 | a key no frame sets keeps the value it had outside, or none |
| `RunContext.ReentryLeaks` | sdk/tracely_sdk/__init__.py:607-624 | an object whose block enters it again, however deep, leaves its fields behind: the context is restored if and only if no code that runs re-enters it, or the fields were in the context already |
| `RunContext.WithExactly` | sdk/tracely_sdk/__init__.py:603-625 | for any block at all, re-entering what it likes: the context is restored exactly when the block never re-enters this object, and is otherwise what the block left |
| `RunContext.Perform` | sdk/tracely_sdk/__init__.py:603-642 | running a program with real trace objects, each with its one slot, entered and left on every way out, is the execution the theorems speak of |
| `RunContext.SpanAttributes.OnStart` | sdk/tracely_sdk/__init__.py:121-161 | a span carries exactly the attributes that are set, each with its value from context or process default |
| `RunContext.StampedAgent` | sdk/tracely_sdk/__init__.py:126-130 | the agent is the innermost frame's, the process default when that is empty |
| `RunContext.StampedMetadata` | sdk/tracely_sdk/__init__.py:150-155 | a metadata key is stamped with the innermost value unless that is null |
| `RunContext.StampedField` | sdk/tracely_sdk/__init__.py:121-161 | every other attribute: the innermost frame's field as it is, the turn index even when zero; empty, it leaves the process default where there is one, or nothing |
| `RunContext.StampedFromOutside` | sdk/tracely_sdk/__init__.py:121-161 | where no frame sets the field it is as outside, or the default, or nothing |
| `StreamRecorder.OpenAiDelta` | sdk/tracely_sdk/_wrap.py:35-53 | content wins over reasoning, reasoning is read under both of its names, empty text is neither |
| `StreamRecorder.AnthropicDelta` | sdk/tracely_sdk/_wrap.py:56-70 | only content-block deltas count: text deltas are content, thinking deltas reasoning |
| `StreamRecorder.Recorder.Feed` | sdk/tracely_sdk/_wrap.py:89-101 | appends the chunk's text to the parts of its kind and marks the first content once |
| `StreamRecorder.Recorder.Finish` | sdk/tracely_sdk/_wrap.py:103-117 | writes the concatenated output and leaves the span context, the first time only |
| `StreamRecorder.TracedStream.Next` | sdk/tracely_sdk/_wrap.py:132-142 | the caller sees exactly what the provider answered, and the history grows by that event |
| `StreamRecorder.TracedStream.End` | sdk/tracely_sdk/_wrap.py:159-195 | close, exit and garbage collection each end the recording like any terminal event |
| `StreamRecorder.ClosesOnce` | sdk/tracely_sdk/_wrap.py:103-117 | every recorder has closed its span once if any terminal event came and not at all otherwise, with the exception x exactly when the first such event was the failure x; it marks at most once, exactly when some chunk had content, and has written just the text before that event |
| `StreamRecorder.RecordsInOrder` | sdk/tracely_sdk/_wrap.py:89-117 | a recorder that has ended left one output: every content text fed before the end, each where the earlier ones end, and the reasoning texts likewise if and only if there were any |
| `StreamRecorder.EndIsFinal` | sdk/tracely_sdk/_wrap.py:103-106 | nothing that happens after the first terminal event changes the span's output or its exit |
| `Gate.WorstStatus` | sdk/tracely_sdk/cli.py:150-158 | the first status of the highest rank, unknown statuses above all known ones, PASS for no results |
| `Gate.WorstByName` | sdk/tracely_sdk/cli.py:146-158 | by name: an unknown status first, then ERROR, FAIL, NO_COVERAGE and PASS |
| `Gate.ExitCodeMeaning` | sdk/tracely_sdk/cli.py:605-611 | 0 exactly when every result is PASS; 2 exactly when some result is unreachable or ERROR |
| `Gate.ExitCodeUnordered` | sdk/tracely_sdk/cli.py:605-611 | the code does not depend on the order of the results |
| `Agents.StripExact` | sdk/tracely_sdk/cli.py:524 | stripping a name takes white space off both ends and nothing else |
| `Agents.AgentList` | sdk/tracely_sdk/cli.py:514-527 | a name is gated if and only if it is not empty and is a comma-separated part, stripped, of a positional argument, of a non-empty --agent, or of the environment when neither is given; each once |
| `Agents.WantedExactly` | sdk/tracely_sdk/cli.py:514-527 | ... told of the characters of the command line alone |
| `Agents.InGivenOrder` | sdk/tracely_sdk/cli.py:514-527 | cut the command line anywhere: the names before the cut are the first names of the result |
| `Agents.DiscoverAgents` | sdk/tracely_sdk/cli.py:499-511 | an agent is gated if and only if some enabled scenario carries its name, or its id for want of a name; each once |
| `Agents.DedupKeepsAll` | sdk/tracely_sdk/cli.py:521-527 | no name is lost |
| `Agents.DedupDistinct` | sdk/tracely_sdk/cli.py:521-527 | no name is gated twice, and each stands where it first appeared |
| `Polling.PollGate` | sdk/tracely_sdk/cli.py:475-496 | the loop leaves the outcome, and the time at which it is known, of polling from now until the timeout |
| `Polling.PollMeaning` | sdk/tracely_sdk/cli.py:487-496 | the first reply that is not running decides if it is asked for before the deadline; otherwise, and only then, the poll times out |
| `Polling.AskedEvery` | sdk/tracely_sdk/cli.py:487-495 | between two polls there is the read, and five seconds |
| `Polling.FirstStarvesAll` | sdk/tracely_sdk/cli.py:586-595 | a gate that uses up the shared budget takes every gate behind it along, whatever their state |
| `Polling.OrderFreeExactly` | sdk/tracely_sdk/cli.py:586-595 | what is learnt does not depend on the order of the agents if and only if none would be answered if polled first, or all are answered in every order |
| `Polling.OrderFreeOnSchedule` | sdk/tracely_sdk/cli.py:586-595 | with reads that take no time: if and only if every gate, or none, has finished by the last poll before the budget ends |
| `Polling.EnoughTime` | sdk/tracely_sdk/cli.py:586-595 | if all gates finish by time f and reads take at most r, the order is free when a nap, and a read per agent, still fit between f and a second before the deadline |
| `Polling.TooLittleTime` | sdk/tracely_sdk/cli.py:586-595 | the other side: if some gate is still running at time f, or just starts to be asked then, and reads take at least r, some order leaves somebody unanswered once a read for each agent but one does not fit between f and a second before the deadline |
| `Polling.FinishedExactly` | sdk/tracely_sdk/cli.py:586-595 | gates that have all finished are answered in every order if and only if the reads of all others leave a second for each, and in some order if and only if they do for one |
| `Polling.FinishedOrderFree` | sdk/tracely_sdk/cli.py:586-595 | so what is learnt of finished gates is free of the order if and only if nobody has a second to begin with, or everybody still has one as the last |
| `Gate.StartAll` | sdk/tracely_sdk/cli.py:571-584 | every gate is started before any is awaited; each failed start leaves an unreachable ERROR result |
| `Gate.PollAll` | sdk/tracely_sdk/cli.py:586-595 | started gates are polled in turn, each with what is left of the one budget in whole seconds; a verdict, or an unreachable ERROR result on a timeout, a stalled read or a read error |
| `Gate.GateAgents` | sdk/tracely_sdk/cli.py:571-611 | exactly one result per agent whatever mix of failures, timeouts and verdicts occurs, and the code of those results, the one the theorems on the order speak of; uncaught exactly when some request fails in another way |
| `Gate.Simulate` | sdk/tracely_sdk/cli.py:541-611 | the whole command: 2 when nothing can be gated, an uncaught error when some request fails otherwise, else one result per agent; 0 only if the server said PASS, in time, about every agent named or, with --all, with an enabled scenario |
| `Gate.OrderMatters` | sdk/tracely_sdk/cli.py:586-611 | two gates that passed long ago: code 2 when the one read slowly is polled first, 0 when it is polled last |
| `Gate.CodeOrderFreeExactly` | sdk/tracely_sdk/cli.py:569-611 | the outcome is the same for every order of the agents if and only if it is not the case that every start worked, no gate comes out as ERROR, and some order answers every gate and another does not |
| `Gate.HopelessMeansTwo` | sdk/tracely_sdk/cli.py:571-611 | a failed start, or a gate that comes out as ERROR, makes the code 2 in every order |
| `Gate.HopefulCode` | sdk/tracely_sdk/cli.py:569-611 | with neither, the code is 2 exactly in the orders that leave somebody unanswered, and one and the same, 0 or 1, in all others |
| `Gate.EnoughTimeForCode` | sdk/tracely_sdk/cli.py:586-611 | one outcome for all orders when a nap, and a read per agent, still fit between the last finish and a second before the deadline |
| `Gate.FinishedCodeExactly` | sdk/tracely_sdk/cli.py:586-611 | for gates that have all finished, the outcome depends on the order if and only if every start worked, none comes out as ERROR, and the reads leave a second for one agent as the last but not for another |
| `Gate.ResultsOrderFree` | sdk/tracely_sdk/cli.py:569-611 | where what is learnt is free of the order, results and code are the same for every order of the agents |
| `Gate.CodeOrderFreeOnSchedule` | sdk/tracely_sdk/cli.py:586-611 | with reads that take no time the code never depends on the order, even where the results do |
| `Gate.NeverFalselyGreen` | sdk/tracely_sdk/cli.py:541-611 | 0 exactly when every agent was started, answered in the budget and said PASS; 2 exactly when some agent gave no answer or ERROR; in whatever order they were polled |
| `Gate.GreenMeansSaid` | sdk/tracely_sdk/cli.py:571-611 | code 0 means that every agent was started and that the server, asked within the budget, said PASS about it |
| `Polling.StatusSaid` | sdk/tracely_sdk/cli.py:487-496 | a status that is learnt is one the server gave about that gate at a time before the deadline |
| `Polling.CrashesBreak` | sdk/tracely_sdk/cli.py:487-496 | an uncaught error is one a read about some gate, asked within the budget, came to |
| `RateLimit.Redis.Hits` | backend/tracely/api/ratelimit.py:38-49 | counts one request on its own counter, opens a 60 s window at the first hit, touches no other counter |
| `RateLimit.Redis.Limit` | backend/tracely/api/ratelimit.py:52-60 | refuses exactly a known count above the limit; lets everything through when Redis is down |
| `RateLimit.AlwaysAnchored` | backend/tracely/api/ratelimit.py:43-46 | whatever is lost, a count was started by one of the requests, and if it expires it does so 60 s after that one |
| `RateLimit.SlidingBound` | backend/tracely/api/ratelimit.py:38-60 | any half-open 60 s interval lets through at most 2L - 1 counted requests of one key, and those past the limit whose INCR reply was lost, at whatever points of whatever requests Redis is lost |
| `RateLimit.LetThroughExactly` | backend/tracely/api/ratelimit.py:52-60 | a counted request is let through exactly when its count is within the limit or never came back |
| `RateLimit.BoundAttained` | backend/tracely/api/ratelimit.py:38-60 | for every L and every number of lost replies there is a run in which just that many are let through |
| `RateLimit.RefusedOnlyWhenBusy` | backend/tracely/api/ratelimit.py:52-60 | in every run a refused request was preceded by at least L counted ones within 60 s, or its counter has no expiry because the EXPIRE of the request that opened it never got to Redis |
| `RateLimit.NoExpiryExactly` | backend/tracely/api/ratelimit.py:43-49 | a counter is without expiry if and only if some request opened it, lost its reply or its EXPIRE, and it has been held since |
| `RateLimit.LostExpireLocksOut` | backend/tracely/api/ratelimit.py:43-49 | such a counter refuses a request if and only if at least L were counted since and the count gets back: once it does, it does for ever |
| `GetOrCreate.RunKeepsInv` | backend/tracely/auth/provisioning.py:81-94 | the invariant between row and callers holds in every interleaving, and a committed row never changes |
| `GetOrCreate.AllReturnTheOneRow` | backend/tracely/auth/provisioning.py:81-94 | in every interleaving every caller that gets a result gets the one row, and a second select never comes back empty |
| `GetOrCreate.ExactlyOneCreates` | backend/tracely/auth/provisioning.py:81-94 | from an absent key, once anybody has committed exactly one caller has created |
| `GetOrCreate.NobodyRecreates` | backend/tracely/auth/provisioning.py:85-87 | with the key present nobody creates and everybody gets that row |
| `GetOrCreate.FailsExactlyOnForeignClash` | backend/tracely/auth/provisioning.py:88-94 | the second select can fail exactly when the key is absent and some other unique constraint can fire |
| `GetOrCreate.NoDeadlock` | backend/tracely/auth/provisioning.py:88-94 | while somebody is unfinished somebody can move |
| `GetOrCreate.StepsAreBounded` | backend/tracely/auth/provisioning.py:81-94 | every step uses up a budget of four per caller, so every run ends |
| `GetOrCreate.InsertExactly` | backend/tracely/auth/provisioning.py:88-92 | an insert puts a row with an id of its own in where the key and all other keys are free, and loses otherwise |
| `GetOrCreate.AbortExactly` | backend/tracely/auth/provisioning.py:88-94 | whoever is not finished can be rolled back at any time, which takes its own uncommitted row along and nothing else |
| `InviteRace.AtMostOneCommits` | backend/tracely/auth/provisioning.py:461-468 | in every interleaving of attempts, crashes, revocation, registration, password changes, leavers, lost workspaces and the organization's deletion, at most one attempt commits |
| `InviteRace.CommitMeansEntitled` | backend/tracely/auth/provisioning.py:445-505 | a commit means an unexpired read, an organization to enter, and the account under that email being the one let in, whose password, if it existed at the read, was the one given then |
| `InviteRace.CommitsOnlyEntitled` | backend/tracely/auth/provisioning.py:461-505 | at the committing step itself the invitation goes from pending to accepted, the organization has a workspace, and the account is a member, with the password given if it is new |
| `InviteRace.OnlyCommitsShow` | backend/tracely/auth/provisioning.py:450-503 | an expired or mismatched read, a lost UPDATE, a raise after the UPDATE and a crash leave everything others can see unchanged |
| `InviteRace.WrongPasswordNeverConsumes` | backend/tracely/auth/provisioning.py:459-460 | an attempt with a wrong password never gets past the read phase in any run, unless the account's password is changed to it |
| `InviteRace.ExpiredNeverConsumes` | backend/tracely/auth/provisioning.py:452-453 | nor does one that reads the invitation only at or after its expiry |
| `InviteRace.SpentForEver` | backend/tracely/auth/provisioning.py:450-468 | a spent or revoked invitation stays so and no further attempt commits |
| `InviteRace.CommitAddsOneMember` | backend/tracely/auth/provisioning.py:471-491 | a commit adds one membership with the invited role, or none for somebody who is a member already |
| `InviteRace.LoneAttempt` | backend/tracely/auth/provisioning.py:429-505 | undisturbed, an attempt succeeds exactly when the invitation is pending and unexpired, the password fits any existing account, and the organization has a workspace |
| `InviteRace.ReadExactly` | backend/tracely/auth/provisioning.py:445-460 | the read phase passes exactly a pending, unexpired invitation with the right password for any account there is, and writes nothing |
| `InviteRace.RowLockHeld` | backend/tracely/auth/provisioning.py:461-468 | while an attempt holds the row nobody else's write to it goes through |
| `InviteRace.EndedStays` | backend/tracely/auth/provisioning.py:461-505 | an attempt that has ended stays as it is, and no attempt moves another |
| `InviteRace.WorldSteps` | backend/tracely/auth/provisioning.py:461-505 | revocation, registration, a password change, a leaver, a lost workspace and deletion each change their own row and nothing more |
| `PasswordReset.Accounts.FindLocal` | backend/tracely/auth/password_reset.py:42-46 | finds the local account of an email, and none only if there is none |
| `PasswordReset.Accounts.CreateReset` | backend/tracely/auth/password_reset.py:36-61 | inserts one grant for the local account of the email, and nothing when there is none |
| `PasswordReset.Accounts.ConsumeReset` | backend/tracely/auth/password_reset.py:64-107 | redeems exactly a known, unused, unexpired grant of an existing user; the row updates leave exactly the rekeyed user and the burnt grants, or nothing changed |
| `PasswordReset.VersionCountsRekeys` | backend/tracely/auth/password_reset.py:89-93 | over any run the token version rises by exactly the number of resets and password changes |
| `PasswordReset.AcceptedUntilRekeyed` | backend/tracely/auth/principal.py:77-88 | a session is accepted later exactly when its user is active and neither reset nor changed the password since |
| `PasswordReset.RevokedForEver` | backend/tracely/auth/password_reset.py:90-93 | every session issued before a reset is refused for ever after |
| `PasswordReset.ResetBurnsAll` | backend/tracely/auth/password_reset.py:64-107 | a reset works exactly for a live grant of an existing user; right after it that user has no outstanding grant and the new password, nobody else's rows changed, and a refusal changes nothing |
| `PasswordReset.SpentStaysSpent` | backend/tracely/auth/password_reset.py:76-105 | a consumed grant stays consumed |
| `PasswordReset.SingleUse` | backend/tracely/auth/password_reset.py:76-105 | each grant is consumed at most once in any run, and never after another reset burnt it |
| `PasswordReset.ResetRoundTrip` | backend/tracely/auth/password_reset.py:36-107 | a grant made for a user redeems, and sets the password, exactly until it expires; a session issued to an active user is accepted there and then |
| `Backfill.IndexByProject` | backend/migrations/versions/0023_organizations.py:127-132 | the grouping loop indexes every project's memberships in order |
| `Backfill.Tables.DraftAll` | backend/migrations/versions/0023_organizations.py:141-166 | one draft per owner in order of first appearance, with new ids and the projects, plan and Stripe ids of that owner |
| `Backfill.SeatSet` | backend/migrations/versions/0023_organizations.py:169-171 | the distinct users on the projects, and the owner |
| `Backfill.Tables.AssignProjects` | backend/migrations/versions/0023_organizations.py:190-194 | one UPDATE per project moves exactly the draft's projects |
| `Backfill.Tables.CollectRoles` | backend/migrations/versions/0023_organizations.py:196-203 | the nested loops leave each user's strongest role, OWNER for the owner |
| `Backfill.Tables.InsertMembers` | backend/migrations/versions/0023_organizations.py:204-214 | every entry is inserted, existing rows kept, in whatever order |
| `Backfill.Tables.InsertOrg` | backend/migrations/versions/0023_organizations.py:168-214 | one owner's organization row, projects and memberships |
| `Backfill.Tables.Backfill` | backend/migrations/versions/0023_organizations.py:108-226 | the loops leave exactly the tables of the row-by-row definition, and nothing changed when no project lacks an organization |
| `BackfillTheorems.RoleExact` | backend/migrations/versions/0023_organizations.py:168-214 | the role anybody has on a project afterwards is exactly the one their seat with its owner carries |
| `BackfillTheorems.ReachExact` | backend/migrations/versions/0023_organizations.py:108-226 | a user reaches a project afterwards exactly when it has an owner and the user is the owner or had a membership on some project of that owner: access widens only within one owner |
| `BackfillTheorems.NobodyLosesAccess` | backend/migrations/versions/0023_organizations.py:108-226 | whoever had a membership on a project, and its owner, still reach it |
| `BackfillTheorems.NoRoleWeakens` | backend/migrations/versions/0023_organizations.py:196-203 | nobody's role is weaker than any they held on the owner's projects; the owner is OWNER; anybody else has a role they held on one of them |
| `BackfillTheorems.RolesExactly` | backend/migrations/versions/0023_organizations.py:168-214 | by name: OWNER for the owner and whoever held OWNER on one of the owner's projects, ADMIN for whoever else held ADMIN on one, otherwise a role they held, none for who held none |
| `BackfillTheorems.OneOrgPerOwner` | backend/migrations/versions/0023_organizations.py:141-153 | two projects share an organization exactly when they share an owner |
| `BackfillTheorems.OwnerlessStayOut` | backend/migrations/versions/0023_organizations.py:134-146 | exactly the projects with no billing owner and no member stay without an organization |
| `BackfillTheorems.AccountOf` | backend/migrations/versions/0023_organizations.py:147-189 | the organization a project lands in is the one drawn up from all of its owner's projects |
| `BackfillTheorems.PlanIsBest` | backend/migrations/versions/0023_organizations.py:160-162 | unlimited if some project is, else pro if some project is, else free |
| `BackfillTheorems.PlanUnordered` | backend/migrations/versions/0023_organizations.py:160-162 | ... whatever their order |
| `BackfillTheorems.PayerIsFirst` | backend/migrations/versions/0023_organizations.py:163-166 | the Stripe ids come together from the first project that has a customer |
| `BackfillTheorems.OrgMeaning` | backend/migrations/versions/0023_organizations.py:148-189 | name of the first project, unlimited, pro or free by the projects' plans, and all three Stripe fields of the first project with a customer, or none |
| `BackfillTheorems.PersonalExactly` | backend/migrations/versions/0023_organizations.py:169-174 | personal exactly when there is one project on which nobody but the owner has a membership |
| `BackfillTheorems.InviteIntoPersonal` | backend/migrations/versions/0023_organizations.py:216-226 | a carried invitation leads into a personal account exactly when its project is its owner's only one and nobody else has a seat on it |
| `BackfillTheorems.InvitesKept` | backend/migrations/versions/0023_organizations.py:216-226 | an invitation that has an organization, or names no project, stays as it is, and every other changes in nothing but that |
| `BackfillTheorems.SecondRunChangesNothing` | backend/migrations/versions/0023_organizations.py:108-125 | a second run changes nothing |
| `MigrationSound.MigrationIsSound` | backend/migrations/versions/0023_organizations.py:108-226 | the migrated tables meet the invariants the service relies on if and only if no pending invitation is to the only project of an owner who shares it with nobody |
| `BackfillTheorems.OwnerOfIs0022` | backend/migrations/versions/0022_billing_owner.py:39-45 | without a billing owner, filter-then-head picks the row that 0022's ORDER BY and LIMIT 1 picks, for every membership list |
| `BackfillTheorems.OwnerSurvives0022` | backend/migrations/versions/0022_billing_owner.py:38-46 | filling in the billing owner first does not change whom 0023 picks |
| `AccountsAccess.NamedExactly` | backend/tracely/auth/principal.py:91-122 | a named workspace is granted exactly when the user is a member of the organization owning it, with that membership's role |
| `AccountsAccess.OldestExactly` | backend/tracely/auth/principal.py:104-119 | without a name the oldest reachable workspace is returned; refused exactly when none is reachable |
| `AccountsGrants.ActsExactly` | backend/tracely/auth/principal.py:91-122 | a request is made from the one workspace its header names or the oldest the caller can open, with the caller's role there; refused with 403 exactly when there is none |
| `AccountsGrants.LimitsExactly` | backend/tracely/domain/billing.py:45-61 | no cap on the unlimited plan, one for a personal account, and by plan for a company |
| `AccountsGrants.RegisterExactly` | backend/tracely/auth/provisioning.py:301-352 | goes through exactly for the first registrant or an open signup with a new address; leaves the account with its password owning a new organization, a company that takes the oldest project over or a personal one with its own |
| `AccountsGrants.NewOrgExactly` | backend/tracely/api/routers/auth.py:144-160 | goes through exactly for somebody with a workspace who is in fewer companies than allowed; leaves them owning a new company with one workspace |
| `AccountsGrants.NewWorkspaceExactly` | backend/tracely/api/routers/auth.py:121-133 | goes through exactly for an owner or admin with room on the plan; adds that one row |
| `AccountsGrants.InviteExactly` | backend/tracely/auth/provisioning.py:388-426 | goes through exactly for an owner or admin of a company with a seat left on its plan, for ADMIN or MEMBER, and somebody not in it; adds that one pending invitation; 403 exactly for who does not manage |
| `AccountsGrants.AcceptExactly` | backend/tracely/auth/provisioning.py:429-505 | goes through exactly for a pending unexpired invitation, the password of any account under that address, and an organization with a workspace; 401 exactly for the wrong password; leaves the account, with this password if new, the membership in the invited role if new, and the invitation spent |
| `AccountsGrants.RevokeExactly` | backend/tracely/api/routers/auth.py:421-433 | goes through exactly for an owner or admin of the invitation's organization; changes that one row if it was pending |
| `AccountsGrants.RemoveExactly` | backend/tracely/api/routers/auth.py:437-506 | goes through exactly for who leaves a company with somewhere else to go, or removes somebody as admin, an owner as owner, and never for the last owner; takes that one row |
| `AccountsGrants.DeleteOrgExactly` | backend/tracely/api/routers/auth.py:167-234 | goes through exactly for an owner of a company with somewhere else to go; every row of it goes and no other |
| `AccountsGrants.DeleteWorkspaceExactly` | backend/tracely/api/routers/admin.py:86-135 | goes through exactly for an owner or admin where a sibling is left; the workspace and the invitations that name it go and nothing else |
| `AccountsGrants.OthersExactly` | backend/tracely/auth/password_reset.py:89-93 | a password change, a seeded project and a change of plan go through exactly when their row is there, or free, and change that row alone |
| `AccountsInvariants.RunSound` | backend/tracely/auth/provisioning.py:219-505 | from any sound tables, the empty ones or the migrated ones, in every run each organization keeps an owner and a workspace, each personal one has exactly its one OWNER and no pending invitation, and all rows refer to existing ones |
| `AccountsInvariants.NextSound` | backend/tracely/auth/provisioning.py:219-505 | every operation, the deletion of a workspace and a password change included, keeps that |
| `AccountsInvariants.PendingMeansCompany` | backend/tracely/auth/provisioning.py:445-451 | a pending invitation never leads into a personal account, though acceptance does not look at the kind |
| `AccountsInvariants.RemoveSound` | backend/tracely/api/routers/auth.py:458-498 | removing a member never leaves an organization without an owner |
| `AccountsInvariants.DeleteWorkspaceSound` | backend/tracely/api/routers/admin.py:86-135 | nor does deleting a workspace leave its organization without one, or any invitation that names it |
| `AccountsCaps.SeatsAccepted` | backend/tracely/auth/provisioning.py:461-491 | accepting never raises the seat count and lowers it exactly when the person was a member already |
| `AccountsCaps.SeatsRemoved` | backend/tracely/api/routers/auth.py:437-498 | removing a member frees exactly one seat of the caller's organization |
| `AccountsCaps.OnlyInvitesAddSeats` | backend/tracely/auth/provisioning.py:114-177 | of all operations only an admitted invitation adds a seat to an existing organization |
| `AccountsCaps.OnlyNewWorkspaceAdds` | backend/tracely/auth/provisioning.py:104-156 | of all operations only an admitted new workspace adds one to an existing organization |
| `AccountsCaps.DeleteWorkspaceCount` | backend/tracely/api/routers/admin.py:94-124 | deleting a workspace takes exactly one from the caller's organization, none from any other, and leaves at least one |
| `AccountsCaps.RunCapped` | backend/tracely/auth/provisioning.py:114-177 | with billing on and no plan lowered, no run from any sound tables takes an organization past the seats or the workspaces it was within |
| `AccountsCaps.PersonalIsOnePerson` | backend/tracely/auth/provisioning.py:330-352 | in every run from sound tables a personal account has one seat, and one workspace with billing on unless its plan is unlimited |
| `AccountsTenancy.MembershipIsHistory` | backend/tracely/auth/provisioning.py:219-238 | in every run membership and role are exactly what the history gives: OWNER to who founded the organization, the invited role at the first acceptance, nothing after leaving or its end |
| `AccountsTenancy.GrantedByHistory` | backend/tracely/auth/principal.py:101-117 | so access to a workspace is granted exactly by that history, with that role |
| `AccountsTenancy.SignInByHistory` | backend/tracely/auth/principal.py:104-119 | whoever belongs to any organization can sign in, and nobody else |
| `AccountsTenancy.AcceptedWereInvited` | backend/tracely/auth/provisioning.py:429-491 | every acceptance follows an invitation of that address to that organization in that role |
| `AccountsTenancy.InvitersManage` | backend/tracely/api/routers/auth.py:354-376 | an invitation goes through only for an owner or admin of the organization it leads into |
| `AccountsTenancy.Confined` | backend/tracely/api/routers/auth.py:121-506 | no request changes any row of an organization other than the one it acts on |
| `AccountsTenancy.WorkspacesStayPut` | backend/tracely/auth/provisioning.py:301-385 | a workspace never changes organization; it goes only with its organization, or by its own deletion by an owner or admin of it, which leaves a sibling |
| `AccountsTenancy.SeededStayOut` | backend/tracely/auth/provisioning.py:312-352 | a project seeded without an organization is adopted by the first registrant or never: no signup takes it over |
| `AccountsTenancy.LeaversCanSignIn` | backend/tracely/api/routers/auth.py:479-496 | leaving or deleting an organization oneself never costs the ability to sign in |
| `AccountsTenancy.DeletersCanSignIn` | backend/tracely/api/routers/admin.py:94-100 | nor does deleting the workspace one is in |
| `Accounts.Database.BootstrapOwner` | backend/tracely/auth/provisioning.py:301-327 | the first registrant's rows: company organization, owner, and the oldest local project adopted or a new one |
| `Accounts.Database.SignupPersonalAccount` | backend/tracely/auth/provisioning.py:330-352 | a personal organization with one workspace, or nothing |
| `Accounts.Database.RegisterUser` | backend/tracely/api/routers/auth.py:255-275 | first registrant, public signup, or refused with nothing changed; the tables stay sound and other organizations as they were, as for every request below |
| `Accounts.Database.CreateCompany` | backend/tracely/api/routers/auth.py:144-160 | the caller owns a new company with a workspace, can sign in, and is within the number of companies allowed; or nothing changed |
| `Accounts.Database.CreateWorkspace` | backend/tracely/api/routers/auth.py:121-133 | somebody who runs an organization put one more workspace into it, within its limit; or nothing changed |
| `Accounts.Database.AssertCanAddSeat` | backend/tracely/auth/provisioning.py:159-177 | lets through exactly companies in which one more seat fits the limit, if there is one and billing is on |
| `Accounts.Database.InviteMember` | backend/tracely/auth/provisioning.py:388-426 | somebody who runs a company put one more seat, within its limit, into it; or nothing changed |
| `Accounts.Database.AcceptInvitation` | backend/tracely/auth/provisioning.py:429-505 | let in exactly as AccountsGrants.AcceptExactly says, told apart by 401 from a wrong password; the seats are what they were or one less; or nothing changed, even if refused after the writes |
| `Accounts.Database.RevokeInvitation` | backend/tracely/api/routers/auth.py:421-433 | an invitation of an organization the caller runs is pending no more, every other is as it was; or nothing changed |
| `Accounts.Database.DropMember` | backend/tracely/api/routers/auth.py:437-506 | one person's seat is freed in the caller's organization, by somebody who runs it or by themselves, who can then still sign in; or nothing changed |
| `Accounts.Database.DeleteOrganization` | backend/tracely/api/routers/auth.py:167-234 | nothing refers to the company any more and its owner can sign in elsewhere; or nothing changed |
| `Accounts.Database.DeleteActiveWorkspace` | backend/tracely/api/routers/admin.py:86-135 | one workspace the caller reaches and runs is gone, its organization has another and the caller can sign in; or nothing changed |
| `ClerkUpsert.RunSound` | backend/tracely/auth/provisioning.py:510-584 | any sequence of upserts leaves one row per Clerk user, per slug, per external workspace id and per user in an organization |
| `ClerkUpsert.KeysExactly` | backend/tracely/auth/provisioning.py:522-558 | the workspace's key is the organization claimed, or else the user's own id marked as such, an empty claim being none; the slug is the first 128 characters of it after clerk- |
| `ClerkUpsert.Landed` | backend/tracely/auth/provisioning.py:510-584 | the rows the upsert answers with are there under its keys, the workspace attached, the role as claimed |
| `ClerkUpsert.Idempotent` | backend/tracely/auth/provisioning.py:510-584 | repeating an upsert changes nothing and answers the same |
| `ClerkUpsert.NeverMoved` | backend/tracely/auth/provisioning.py:565-566 | no run of upserts moves a workspace that is attached to an organization |
| `ClerkUpsert.PrincipalOwnsSpace` | backend/tracely/auth/provisioning.py:537-584 | the answered organization is the workspace's own exactly unless the workspace was attached to a different one before |
| `ClerkUpsert.FailsExactly` | backend/tracely/auth/provisioning.py:552-564 | an upsert fails exactly when its workspace is new and its cut slug belongs to another external id |
| `ClerkUpsert.ShortIdsNeverFail` | backend/tracely/auth/provisioning.py:546-564 | with ids short enough not to be cut no upsert of any sequence fails |
| `ClerkUpsert.CutIdsNeverShare` | backend/tracely/auth/provisioning.py:542-558 | ids cut to the same slug never share an organization: once one has its workspace every upsert of the other fails |
| `ClerkUpsert.RoleAfter` | backend/tracely/auth/provisioning.py:571-579 | an upsert sets the role it claims and touches nobody else's |
| `ClerkUpsert.RolesAreLatest` | backend/tracely/auth/provisioning.py:571-579 | after any sequence membership and role are exactly those last claimed |
| `ClerkUpsert.KindsFollowClaims` | backend/tracely/auth/provisioning.py:537-548 | organizations of personal accounts are personal and all others companies, after any sequence |
| `ClerkUpsert.PersonalAccountIsOwn` | backend/tracely/auth/provisioning.py:522 | a personal account has its own user and nobody else, if no organization id looks like a personal one |
| `ClerkUpsert.Database.GetOrCreateSpace` | backend/tracely/auth/provisioning.py:552-564 | finds the workspace, inserts it, or reports the clash on its slug |
| `ClerkUpsert.Database.UpsertPrincipal` | backend/tracely/auth/provisioning.py:510-584 | the four steps leave exactly the upserted rows, or none of them when the workspace clashes |
| `Evaluators.Catalog.Seed` | backend/tracely/auth/provisioning.py:52-73 | appends the recommended entries whose score names were absent at the start and counts them |
| `Evaluators.SeedInstallsExactly` | backend/tracely/auth/provisioning.py:52-73 | the workspace then has its old evaluators and every recommended one, other workspaces none more |
| `Evaluators.SecondSeedAddsNothing` | backend/tracely/auth/provisioning.py:52-73 | seeding again adds nothing |
| `Evaluators.MissingInOrder` | backend/tracely/auth/provisioning.py:52-73 | they are installed in catalog order |

## Left out

- Replay.OutOfOrderReplay: args are compared as JSON values; that Python finds 1, 1.0 and True equal is not modelled.
- ReplayQueues.FixtureStore.Unconsumed: states keys and counts, not the sorted text or the log line made from them.
- ReplayQueues.FixtureStore.constructor: a section is a list of dictionaries, a dictionary, or anything else; list elements that are no dictionaries, which make the code raise, are not modelled.
- Polling.PollGate: the clock advances by the time each read takes and by the 5 s of each sleep, and by nothing else.
- Gate.StartAll: what the server answers to a start does not depend on when it is asked.
- Polling.OrderFreeExactly: a gate keeps the status it finished with, and no read fails; FirstStarvesAll and NeverFalselyGreen need neither.
- Agents.StripExact: white space is the ASCII one.
- Gate.CodeOrderFreeExactly: as Polling.OrderFreeExactly, for gates that keep the status they finished with and reads that do not fail.
- RateLimit.SlidingBound: a client that sends a lost command again by itself is not modelled; no other request's commands come between an INCR and its EXPIRE, and the clock does not run backwards.
- RunContext.SpanAttributes.OnStart: values are stamped as they are; their conversion to text, integer or printed JSON is not modelled, nor is the remote parent given by a traceparent header.
- StreamRecorder.Recorder.Finish: errors while writing the output, which are swallowed, and token usage are not modelled.
- Providers.AnthropicRoundTrip: JSON printing and parsing are assumed inverse, and token usage is left out.
- Providers.OpenAiRoundTrip: the span's list of tool names and token usage are left out.
- InviteRace.CommitMeansEntitled: password hashing is an abstract equality.
- PasswordReset.Accounts.ConsumeReset: atomic; there is no conditional update in the code. Token hashes are injective.
- AccountsCaps.RunCapped: guard and insertion are one atomic step, and it speaks of runs that never lower a plan's room.
- AccountsInvariants.DeleteWorkspaceSound: finding the siblings and deleting are one atomic step.
- Accounts.Database.DeleteActiveWorkspace: the confirmation by name, the usage counters a sibling inherits and the external stores are left out.
- MigrationSound.MigrationIsSound: speaks of tables from before the organization tier, whose references all resolve.
- AccountsInvariants.RunSound: a local user is identified by the email, which is unique and never changes.
- AccountsSpec.SelectMembership: the caller's session has been verified; machine keys and dev mode are left out.
- Accounts.Database.BootstrapOwner: among projects created at the same instant the one with the smaller id is adopted; the code leaves that to the database.
- Accounts.Database.DeleteOrganization: the confirmation by name and the external stores are left out; the projects go in one step.
- Backfill.Tables.Backfill: names and slugs of new organizations beyond the name's fallback, and the randomness of ids, are left out; new ids are the next unused numbers.
- ClerkUpsert.RolesAreLatest: one request at a time; concurrency is the subject of GetOrCreate. Names, emails and slugs of local organizations are left out.
- ClerkUpsert.CutIdsNeverShare: external ids may have any length; the column holds 128 characters, so in the database only ids of 123 to 128 characters are both cut and stored.
- Providers.ReconstructAnthropic: a recorded tool call whose function is neither a dictionary nor empty, on which the code raises, is rebuilt as one without a function.
- HTTP, OpenTelemetry export, SQL and Redis plumbing, argument capture, redaction, console and markdown rendering.
- The asynchronous twins of the stream wrapper and the decorators, which take the same steps.
- `_reconstruct_google`: the shape it reads is not the one the drop-in records.
- Patching of provider classes, JWT and JWKS verification, random tokens, email delivery.
- Stripe webhooks beyond their effect on an organization's plan.
