# Protocol cores of the Greeto backend

A Dafny model of the six protocol cores of the Go, TypeScript and Python backend, with
their safety properties proved for every input, every run and every reachable state.
`dafny verify dfyconfig.toml` checks the project.

| files | core |
|---|---|
| `PlacementEntries`, `PlacementDirectory`, `PlacementProtocol` | the signed placement directory: entry and epoch rules, one directory's lock sections, any number of directories over one compare-and-swap checkpoint store |
| `JsonStrings`, `JsonText`, `JsonRules`, `JsonTree`, `PythonReader`, `GoTokens`, `GoReader`, `ReadersAgree` | the two bounded event-identity readers and the placement decoder's walk, over one RFC 8259 printer and parser |
| `DependencyGraph`, `StatusService`, `StatusProtocol`, `StatusProgress` | the dependency check, the delivery-status transaction, and the link between them |
| `Decimal`, `Planner`, `Egress`, `Recorder` | a webhook attempt from send outcome to decision to write-once receipt |
| `EventFlow`, `Ingress` | provider ingress: bind all, append all, acknowledge, consume with deduplication |
| `Headers`, `Signing`, `SignedHeaders`, `Receiving`, `ReceiverGate`, `ReceiverHttp` | the v1 signing contract in both languages, the event it authenticates, and the receiver's admission, draining and acknowledgement |

How the model is made:

- A class with the source's fields carries the source's steps; each method is proved equal
  to a function on the field values, and the run theorems are about those functions. Code
  that waits (store I/O, an await, other goroutines) gets the steps of everybody else as an
  argument, so a theorem over all arguments is a theorem over all interleavings.
- A run is a fold over a sequence of steps. Clock readings, faults, cancellations and
  whose turn it is are part of a step.
- SHA-256 is a constructor over its preimage, so it is injective; HMAC and the digest in a
  proof are functions of their inputs. Ed25519 is a predicate on
  key, message and signature.
- Ports keep the contract their comments state: the checkpoint compare-and-swap is atomic
  and durable (`backend/internal/placement/directory.go:75-84`), the receipt ledger is
  conditional and write-once (`backend/services/webhook-dispatcher/lifecycle/recorder.go:29-39`),
  `predecessorsVerified` means that every predecessor is Done, a policy version names one
  policy, the projection stores an effect together with its deduplication marker
  (`backend/internal/events/durability.go:78-82`), and the inbox files a delivery once
  (`backend/services/webhook-dispatcher/receiverhttp/types.go:63-74`). Each of these
  stores may still lose a write or lose the answer to one, the status transaction may be
  rejected or commit unanswered, and where the source defends against it a port answers
  wrongly.
- Instants are integers (nanoseconds in the planner, seconds in the signing contract);
  planner durations are a 64-bit type, so every product is an overflow obligation.

Two results differ from what the documentation leads one to expect:

- The Go and the Python side do not always find the same header value: Go's `EqualFold`
  reads U+017F as an `s`, Python's `lower()` does not. With n values under Python's
  spellings and x more under spellings only Go takes for the name, they differ exactly
  when n is 1 and x is not 0 (Python finds a value, Go sees too many) or n is 0 and x is 1
  (Go finds a value, Python none): `HeadersAgree`. Of the five security headers only the
  timestamp and the signature have an `s`; `OnlyTwoNamesDivide`, `SignatureHeaderDivides`
  and `TimestampHeaderDivides` show this in both directions. The alias rule for `event_id`
  is not affected, since the name has no `s` (`AliasMeans`). Python also has size limits
  that Go has not (128 pairs, 8192 characters), past which it refuses.
- An accepted dependency graph does not by itself keep every package able to reach Done:
  a request can only name versions up to 2^53 - 1. `FinishableIff` is the exact condition,
  `LastVersionIsStuck` a package that can never finish.

## Model

| member | source | states |
|---|---|---|
| PlacementEntries.ValidateEntries | backend/internal/placement/directory.go:365-381 | Succeeds exactly on lists that are within bounds, have only valid entries and name no asset twice, and then returns their lookup table; otherwise the error is that of the first offending entry |
| PlacementEntries.EntriesFaultMeans | backend/internal/placement/directory.go:365-381 | No entry is at fault exactly when the list is well formed |
| PlacementEntries.EntriesFaultNamesIt | backend/internal/placement/directory.go:365-381 | The code of a refused list names what is wrong with it: its size, an offending entry or a repeated asset |
| PlacementEntries.ValidateEpochs | backend/internal/placement/directory.go:395-409 | Passes exactly when every old asset is still present, its epoch has not fallen, and an unchanged epoch means an identical entry; otherwise the fault is that of the first offending entry |
| PlacementEntries.EpochsFaultMeans | backend/internal/placement/directory.go:395-409 | No old entry is at fault exactly when the anti-rollback rule holds |
| PlacementEntries.EpochsFaultNamesIt | backend/internal/placement/directory.go:395-409 | The code of a broken anti-rollback rule names what happened to some old entry: gone, an older epoch, or a change under the same epoch |
| PlacementEntries.EpochsAdvanceTransitive | backend/internal/placement/directory.go:395-409 | The anti-rollback rule composes, so it holds between any two checkpoints of a chain |
| PlacementEntries.SameEntries | backend/internal/placement/directory.go:419-429 | For a list without duplicates the one-way comparison plus equal sizes is equality of the two tables |
| PlacementEntries.SameSizeContainment | backend/internal/placement/directory.go:419-429 | The cardinality argument behind it |
| PlacementDirectory.Directory.ClockLocked | backend/internal/placement/directory.go:330-337 | A zero or backward reading is refused and leaves the clock alone; any other becomes the last observed time |
| PlacementDirectory.Directory.StatusLocked | backend/internal/placement/directory.go:338-359 | Ready exactly with a loaded snapshot under a live unrevoked key inside its validity |
| PlacementDirectory.StatusIsExact | backend/internal/placement/directory.go:330-359 | Ready exactly on a forward reading at which snapshot and key are both in force; otherwise the reason tells clock, no snapshot, key and expiry apart |
| PlacementDirectory.Directory.Resolve | backend/internal/placement/directory.go:290-307 | Answers only an active entry of a ready snapshot; changes nothing but the clock |
| PlacementDirectory.Directory.RevokeKey | backend/internal/placement/directory.go:317-329 | Adds the key for good and drops a snapshot signed under it |
| PlacementDirectory.Directory.InstallBegin | backend/internal/placement/directory.go:168-218 | The first lock section and the checks of bounds, key, signature, schema, scope, validity and entries, in that order |
| PlacementDirectory.BeginMeans | backend/internal/placement/directory.go:168-218 | A request gets as far as the store exactly when it is bounded, its clock reading moves forward, its key is known, unrevoked and live, its signature holds over the domain and these bytes, and they decode to a document in scope, in force and with a well-formed list |
| PlacementDirectory.Directory.ValidateCheckpoint | backend/internal/placement/directory.go:382-394 | Accepts exactly the provisioned empty record or a well-formed one |
| PlacementDirectory.Directory.InstallVet | backend/internal/placement/directory.go:223-241 | Corrupt, rolled back and regressed checkpoints are refused, and which of them drop the cached snapshot |
| PlacementDirectory.Directory.InstallCompare | backend/internal/placement/directory.go:242-251 | The same-version equality check and the epoch rule, and whether a write is needed |
| PlacementDirectory.Directory.InstallActivate | backend/internal/placement/directory.go:262-283 | The second lock section: revocation, clock, cancellation and expiry are looked at again before the snapshot becomes visible |
| PlacementDirectory.Directory.Install | backend/internal/placement/directory.go:168-284 | All phases in their order, over the fields and the store, with the error returned for every failure of load, write, clock and context |
| PlacementDirectory.InstallIsSound | backend/internal/placement/directory.go:158-167 | Success means that these bytes are the newest durable checkpoint and the visible snapshot; at most one checkpoint is written, it raises the version and keeps the epoch rule; a durable but unacknowledged write ends in an error with nothing cached |
| PlacementDirectory.OnlySignedIsInstalled | backend/internal/placement/directory.go:195-211 | Nothing succeeds, is written or becomes visible without a signature over the domain and these bytes under the directory's own key of the requested name, which the document itself names too |
| PlacementDirectory.InstallSucceedsIff | backend/internal/placement/directory.go:168-284 | Exactly when an install succeeds, over all inputs: the request is taken, its document fits a sound checkpoint and the live snapshot, the write it needs is acknowledged, and it is still in force at the second reading |
| PlacementDirectory.RefusalNamesItsCause | backend/internal/placement/directory.go:168-284 | Each error code of an install implies its own cause in the request, the document, the checkpoint, the write or the second reading |
| PlacementDirectory.ReinstallAfterUncertainWrite | backend/internal/placement/directory.go:165-166 | When the uncertain write did persist, the same bytes pass every checkpoint check and ask for no second write |
| PlacementDirectory.FailedInstallKeepsOrDrops | backend/internal/placement/directory.go:165-166 | A failed install leaves the live snapshot and the store alone exactly when the candidate itself was turned away; any doubt about checkpoint, write or activation drops the snapshot |
| PlacementProtocol.InstallIsARun | backend/internal/placement/directory.go:168-284 | Install from end to end is the run of its own steps in the state machine, on every path, so the run theorems are about it |
| PlacementProtocol.StoreStepLinked | backend/internal/placement/directory.go:251-260 | A matching compare-and-swap keeps the whole history ordered, even if the checkpoint was loaded long before |
| PlacementProtocol.NodeStepHolds | backend/internal/placement/directory.go:168-359 | Every lock section and store access of a directory keeps its invariant, whatever the others wrote since its last step |
| PlacementProtocol.RunHolds | backend/internal/placement/directory.go:168-359 | The invariant holds along every interleaving of any number of directories, and the history only grows |
| PlacementProtocol.HistoryIsMonotone | backend/internal/placement/directory.go:395-409 | Over the whole history of any run: versions strictly increase, no asset disappears, no epoch falls, and any two checkpoints that give an asset one epoch give it the identical entry, each of its entries included; only a provisioned record that repeats an asset can differ from itself |
| PlacementProtocol.BindingIsDurable | backend/internal/placement/directory.go:290-307 | Every answer comes from a recorded checkpoint whose bytes this directory's own live, unrevoked key signed for it; they decode to a snapshot of its directory, issuer, audience and environment, in force at the reading, with exactly that active entry in an allowed region |
| PlacementProtocol.AnswerIsExact | backend/internal/placement/directory.go:290-307 | In every reachable state an asset is answered exactly when the snapshot in force lists it as active and the reading moves the clock forward |
| PlacementProtocol.SameVersionSameBinding | backend/internal/placement/directory.go:290-307 | Two directories answering from the same snapshot version give the same binding, also at different moments of a run |
| PlacementProtocol.InstalledNeverFalls | backend/internal/placement/directory.go:234-241 | No step lowers the version of a directory's last successful install, and the regression branch is never taken while the store keeps its contract |
| PlacementProtocol.InstalledNeverFallsOverRuns | backend/internal/placement/directory.go:219-283 | The same over every run |
| PlacementProtocol.KeyIsRevoked | backend/internal/placement/directory.go:317-329 | Revoking a key touches only the revoked set and a snapshot signed under that key |
| PlacementProtocol.RevocationIsFinal | backend/internal/placement/directory.go:262-267 | After RevokeKey(k) no answer ever comes from a snapshot signed under k, with any install under k in flight at that moment |
| PlacementProtocol.ExpiryIsFinal | backend/internal/placement/directory.go:268-281 | Once a directory has observed a time at or past a snapshot's expiry, no later answer comes from it and no later activation of it succeeds |
| JsonStrings.PairedIsEncodable | backend/services/webhook-dispatcher/receiving/json.go:91-127 | A string's escapes are properly paired exactly when the decoded string has no surrogate left; then replacing and keeping decoders agree |
| JsonStrings.ShortIsHex | backend/sdk/python/greeto_webhooks/event.py:86-96 | Each two-character escape means what its four-digit spelling means, so a name is the same however it is spelled |
| JsonStrings.Utf8Injective | backend/sdk/python/greeto_webhooks/event.py:210 | The bytes of a body determine its text |
| JsonStrings.FoldingsAgree | backend/services/webhook-dispatcher/signing/signature.go:121-134 | Python's comparison with a lower-case ASCII name is Go's without U+017F; the two agree exactly unless EqualFold holds through that letter |
| JsonText.ReadDocumentIsInverse | backend/sdk/python/greeto_webhooks/event.py:86-158 | Reading returns a document exactly when it is well formed and prints to that very text: printing with any spacing and spelling round-trips, and nothing else is read |
| JsonRules.CheckIsExact | backend/sdk/python/greeto_webhooks/event.py:98-158 | Below the root the walk in document order succeeds exactly on trees with unique short encodable names within depth and token budgets, and its counter is the tree's token count |
| JsonRules.CheckRootIsExact | backend/sdk/python/greeto_webhooks/event.py:117-168 | At the root it returns an id exactly when the tree is tidy, within limits, has that event_id as a valid identity and no case-variant of the name |
| JsonRules.IdentityIsUndotted | backend/services/webhook-dispatcher/receiving/json.go:12 | On texts an event identity is exactly the token without a dot that the signing contract asks of the event header |
| JsonTree.EventIdIsExact | backend/sdk/python/greeto_webhooks/event.py:160-168 | A text has an event identity exactly when it is the print of such a tree |
| PythonReader.Reader.String | backend/sdk/python/greeto_webhooks/event.py:86-96 | One tick, then the decoded string, refused when it cannot be encoded |
| PythonReader.Reader.Atom | backend/sdk/python/greeto_webhooks/event.py:106-115 | One tick, then the literal or number that RFC 8259 has here |
| PythonReader.Reader.Value | backend/sdk/python/greeto_webhooks/event.py:98-115 | Consumes exactly the value at the front, with its ticks, and returns it when it is a string |
| PythonReader.Reader.Name | backend/sdk/python/greeto_webhooks/event.py:131-144 | A name with its colon: short, fresh in its container, no alias of event_id at the root |
| PythonReader.Reader.Container | backend/sdk/python/greeto_webhooks/event.py:117-158 | Consumes exactly one container, with its ticks, within the depth limit |
| PythonReader.Reader.Entries | backend/sdk/python/greeto_webhooks/event.py:130-158 | The loop reads the entries one by one up to the closing bracket |
| PythonReader.Reader.Run | backend/sdk/python/greeto_webhooks/event.py:160-168 | The character scanner computes the event identity of the text on every text, and on success has ticked once for every key, value and bracket |
| GoTokens.TakePut | backend/services/webhook-dispatcher/receiving/json.go:22-36 | The token stream of a tree is read back as that tree |
| GoTokens.TakeSound | backend/services/webhook-dispatcher/receiving/json.go:22-36 | Whatever is read from a stream is the stream of a tree |
| GoReader.AliasMeans | backend/services/webhook-dispatcher/receiving/json.go:56-59 | On every key Go's alias check of event_id is Python's |
| GoReader.Walker.Key | backend/services/webhook-dispatcher/receiving/json.go:45-60 | The key checks of one object entry, in terms of the walk's name rule |
| GoReader.Walker.Container | backend/services/webhook-dispatcher/receiving/json.go:38-80 | Consumes exactly the kids of one container and its closing bracket |
| GoReader.Walker.EventId | backend/services/webhook-dispatcher/receiving/json.go:18-89 | On every stream the token walker returns the id of the tree that the stream presents, and refuses trailing tokens |
| GoReader.StrictWalker.WalkValue | backend/internal/placement/json.go:29-76 | Succeeds exactly when a whole value is next with lower-case unique names at every level and at most eight levels, and consumes exactly it |
| GoReader.StrictWalker.StrictDecode | backend/internal/placement/json.go:15-27 | Accepts exactly the token streams of one such value with nothing after it |
| GoEscapes.Hex4 | backend/services/webhook-dispatcher/receiving/json.go:128-144 | The 16-bit accumulator never loses a bit: the result is the value of the four digits |
| GoEscapes.ScalarEscapes | backend/services/webhook-dispatcher/receiving/json.go:94-127 | The index loop decides the byte-level pairing property |
| GoEscapes.EscapesOfDocument | backend/services/webhook-dispatcher/receiving/json.go:91-93 | Over the UTF-8 bytes of any printed document, the byte scan accepts exactly when every string in it is properly paired |
| ReadersAgree.GoAndPythonAgree | backend/services/webhook-dispatcher/receiving/json.go:18-89 | On every text the Go reader and the Python reader return the same event_id or both refuse |
| ReadersAgree.EventId | backend/services/webhook-dispatcher/receiving/json.go:18-89 | The Go reader as a whole computes what the Python reader computes |
| ReadersAgree.StrictDecodeText | backend/internal/placement/json.go:12-27 | Of all byte strings the placement decoder's walk lets through exactly the UTF-8 texts of one JSON value with lower-case unique names and at most eight levels |
| DependencyGraph.OrderedIsAcyclic | tools/check_foundation.py:63-75 | A graph with a topological order of all its packages has no cycle and no unknown predecessor |
| DependencyGraph.Checker.Dependencies | tools/check_foundation.py:64-73 | The depth-first search terminates; a reported cycle is a cycle; without one, the order in which keys enter visited stays topological and active is restored |
| DependencyGraph.Checker.Check | tools/check_foundation.py:74-75 | On a graph that names only its own packages, dependency_cycle is raised exactly when there is a cycle; when nothing is raised, the visited order is topological and complete |
| DependencyGraph.Contracts | tools/check_foundation.py:56-75 | The same from the rows of the baseline, with the size check on rows and on distinct ids: a complete baseline over its own ids passes exactly when it has no cycle |
| StatusService.Service.Transaction | backend/services/core/src/status-service.ts:97-114 | The serializable transaction: replay, conflict, version, transition and prerequisite checks, and the persisted change |
| StatusService.Service.ChangeStatus | backend/services/core/src/status-service.ts:68-115 | With other calls committing at its awaits and a transaction that may be rejected or commit unanswered: a returned receipt is durable and of this very intent, the store has this call's change on top of the others' or nothing of it, a replay needs no evidence, a call with its evidence is decided by the transaction alone, and Done without a reference and all six gates has no effect and is refused with its code |
| StatusProtocol.CommitsHold | backend/services/core/src/status-service.ts:97-114 | The invariant over every sequence of committed transactions |
| StatusProtocol.ReachableStoresAreAccounted | backend/services/core/src/status-service.ts:97-114 | In every reachable store a version is the initial one plus the receipts persisted for the package, its history is a path in the transition table, and every predecessor of a package In progress, in Review or Done exists in its scope and is Done |
| StatusProtocol.FreshCallIsDecided | backend/services/core/src/status-service.ts:76-114 | In every reachable store a call whose actor has not used its key in its scope is done exactly when package, version, transition and predecessors allow it; it then changes this one package and adds its one receipt and log entry, and a refusal changes nothing and names the first thing that is wrong |
| StatusProtocol.DoneIsFinal | backend/services/core/src/status-service.ts:39 | Done is never left, whatever is called |
| StatusProtocol.OneChangePerKey | backend/services/core/src/status-service.ts:79-102 | At most one change is ever persisted per scoped actor and idempotency key, however many calls missed the outer lookup |
| StatusProtocol.ReplayReturnsTheReceipt | backend/services/core/src/status-service.ts:98-102 | Under the same scope, actor and key the same change later gets the original receipt however far the package has moved, any other change conflicts, and neither has an effect |
| StatusProgress.FinishFrom | backend/services/core/src/status-service.ts:34-40 | Following a topological order, a legal sequence of changes brings every package to Done |
| StatusProgress.DoneNeedsNames | backend/services/core/src/status-service.ts:71 | Whatever calls finish a package had nameable expected versions on the way |
| StatusProgress.FinishableIff | backend/services/core/src/status-service.ts:97-114 | Over an accepted graph a store can be finished exactly when every package's remaining versions are nameable |
| StatusProgress.NeverStuck | backend/services/core/src/status-service.ts:103-113 | The same for every store reachable from an initial one |
| StatusProgress.LastVersionIsStuck | backend/services/core/src/status-service.ts:71 | A package In progress at version 2^53 - 1 is never Done again |
| Planner.New | backend/services/webhook-dispatcher/lifecycle/planner.go:101-131 | Accepts exactly the profiles within the ceilings, with distinct retryable statuses and fault codes |
| Planner.ScanRetryAfter | backend/services/webhook-dispatcher/lifecycle/planner.go:280-306 | The digit scan and its bounded 64-bit arithmetic compute the hint's meaning without overflow |
| Planner.DelaySecondsAreExact | backend/services/webhook-dispatcher/lifecycle/planner.go:287-299 | For delay-seconds, beyond is reported exactly when observed plus the unbounded number of seconds is at or past the cutoff |
| Planner.SplitProduct | backend/services/webhook-dispatcher/lifecycle/planner.go:251-254 | The split expression is the exact floor of span times sample over 1,000,000, with both products inside 64 bits |
| Planner.Jitter | backend/services/webhook-dispatcher/lifecycle/planner.go:251-254 | Computed in 64 bits: no overflow under any accepted profile, and never above the span |
| Planner.ScheduleIsExact | backend/services/webhook-dispatcher/lifecycle/planner.go:234-272 | In unbounded arithmetic: a retry at t is scheduled if and only if the observation is retryable, attempts are left, observation and t lie before the deadline and the maximum age, and t is the later of delay plus jitter and the hint |
| Planner.PausedIff | backend/services/webhook-dispatcher/lifecycle/planner.go:212-223 | A delivery is paused exactly on an observed redirect, 401 or 403 |
| Planner.BlockedIff | backend/services/webhook-dispatcher/lifecycle/planner.go:204-211 | A delivery is blocked exactly when nothing was sent for a reason outside the profile's retryable ones |
| Planner.FailedIff | backend/services/webhook-dispatcher/lifecycle/planner.go:224-272 | A delivery has failed exactly on 410, on another answer from 400 that is neither 401 nor 403 nor retryable, or on a retryable observation with attempts, window or due time exhausted |
| Planner.RefusedIff | backend/services/webhook-dispatcher/lifecycle/planner.go:158-233 | The planner refuses exactly inconsistent input, and an unreadable hint where a retry would be in order |
| Planner.DecisionNamesItsCause | backend/services/webhook-dispatcher/lifecycle/planner.go:158-272 | A decision is of this attempt under its policy with fitting outcome and codes, carries the observed status, and its reason implies its state and cause |
| Planner.RetryIsSafe | backend/services/webhook-dispatcher/lifecycle/planner.go:186-273 | A retry is scheduled only after one of three pre-send faults or an observed 408, 425, 429 or 5xx, at or after observation plus delay and before both deadline and maximum age |
| Planner.HintOnlyExtends | backend/services/webhook-dispatcher/lifecycle/planner.go:255-267 | A scheduled time honours a delay-seconds hint |
| Planner.AcknowledgementOutranksExpiry | backend/services/webhook-dispatcher/lifecycle/planner.go:191-203 | An observed 2xx is always ACCEPTED and an uncertain send always UNKNOWN, whatever timers and budgets say, and nothing else is |
| Planner.DeliveryIsBounded | backend/services/webhook-dispatcher/lifecycle/planner.go:241-244 | A whole delivery has at most MaxAttempts attempts, never more than 64, and one that used them all has ended |
| Planner.ScheduleIncreases | backend/services/webhook-dispatcher/lifecycle/planner.go:237-273 | Its scheduled times strictly increase and all lie in the one window of its first attempt |
| Egress.ScanRetryHint | backend/services/webhook-dispatcher/egress/client.go:339-367 | The scan computes the canonical hint |
| Egress.HintIsCanonical | backend/services/webhook-dispatcher/egress/client.go:336-338 | A hint is its own hint and stays within the recorded length |
| Egress.HintIffReadable | backend/services/webhook-dispatcher/egress/client.go:339-367 | There is a hint exactly for a single short value that is up to twelve digits or a date after trimming |
| Egress.HintKeepsMeaning | backend/services/webhook-dispatcher/egress/client.go:339-367 | Everything the hint emits is accepted by the planner with the meaning of what the endpoint wrote |
| Egress.RoundTrip | backend/services/webhook-dispatcher/egress/client.go:273-284 | However often the transport dials, the prepared connection is handed over at most once |
| Egress.RefusalIsTheFirst | backend/services/webhook-dispatcher/egress/client.go:170-288 | A refusal carries the code of the first closed gate in the order of the gates, and a request passes exactly when all fifteen are open |
| Egress.Send | backend/services/webhook-dispatcher/egress/client.go:160-334 | The first refusing gate is reported as blocked with its own code and without a hand-off; past all gates at most one hand-off; a failed exchange is unknown exactly when it happened and says whether it was cancelled; an answer is reported with its status, class, hint and collection fault |
| Egress.SendResultsArePlanned | backend/services/webhook-dispatcher/lifecycle/planner.go:174-230 | Every result of Send without a response or with a status in 200..599 is planned, never refused as an impossible combination |
| Egress.NoResendAfterUnobservedPost | backend/services/webhook-dispatcher/lifecycle/planner.go:194-203 | A resend is scheduled only for a blocked attempt or an observed retryable status |
| Egress.SendThenPlan | backend/services/webhook-dispatcher/egress/client.go:295-309 | From the environment to the schedule: a resend means nothing was handed to HTTP or a retryable status was observed |
| Recorder.WriteOnce | backend/services/webhook-dispatcher/lifecycle/recorder.go:29-39 | Under any sequence of commits a key gets at most one receipt and it never changes |
| Recorder.CommitsExplained | backend/services/webhook-dispatcher/lifecycle/recorder.go:118-122 | Every recorded receipt is the plan of the observation it hashes |
| Recorder.Record | backend/services/webhook-dispatcher/lifecycle/recorder.go:91-143 | The steps of Record with other recorders committing around its read and every port fault |
| Recorder.RecordKeeps | backend/services/webhook-dispatcher/lifecycle/recorder.go:84-90 | Whatever happens around it, nothing recorded is lost or replaced and every receipt stays the plan of its observation |
| Recorder.SuccessIsRecorded | backend/services/webhook-dispatcher/lifecycle/recorder.go:118-142 | A returned receipt is the recorded one: one version past its attempt, with the plan and the hash of this observation, even over an adapter that answers wrongly |
| Recorder.RecordSucceedsIff | backend/services/webhook-dispatcher/lifecycle/recorder.go:91-143 | Exactly when a call succeeds, over all inputs and interleavings: permitted, read and planned, and its receipt is on file already or its own commit is acknowledged, with that receipt, while the attempt is still open |
| Recorder.FailureNamesItsCause | backend/services/webhook-dispatcher/lifecycle/recorder.go:91-143 | Each error code implies its own cause, and without a valid key and permission nothing moves |
| Recorder.RetryRecovers | backend/services/webhook-dispatcher/lifecycle/recorder.go:123-128 | A retry of the recorded observation recovers its receipt; another observation conflicts or is refused by the planner; neither has an effect |
| Recorder.OpenAttemptIsRecorded | backend/services/webhook-dispatcher/lifecycle/recorder.go:132-142 | An attempt still open when its own undisturbed commit arrives gets the planned receipt |
| Recorder.SuccessesAgree | backend/services/webhook-dispatcher/lifecycle/recorder.go:91-143 | Two calls for a key that both succeed return the same receipt, whatever their observations, the ports and the commits in between; so both were of one observation |
| Recorder.LostAcknowledgementIsRecovered | backend/services/webhook-dispatcher/lifecycle/recorder.go:34-35 | After a lost acknowledgement the same observation finds its own receipt |
| PlacementBinding.BindingIsStable | backend/services/ingress/placement.go:78-110 | The event identity and partition key survive a placement refresh or relocation, and two bound candidates share them only when they are the same event or asset |
| PlacementBinding.BoundToItsCell | backend/services/ingress/placement.go:78-105 | A bound record goes to the topic of the lane, region and cell of the resolved entry, keyed by its asset, with the event's identity, the provider's payload and the scope, place and snapshot from the directory; the entry is an active one of exactly this asset and environment |
| PlacementBinding.ResolvedAssetsBind | backend/services/ingress/placement.go:82-103 | For any directory of the placement protocol an admissible candidate is bound exactly when the directory resolves its asset and serves the route's environment, and then to the topic of the cell where the snapshot in force places that asset |
| EventFlow.Plane.PublishPending | backend/internal/events/durability.go:58-76 | Publish, acknowledgement, mark, in that order; marked exactly after a matching acknowledgement and nothing else is |
| EventFlow.Plane.ConsumeNext | backend/internal/events/durability.go:88-102 | Effect first, offset after it; without an acknowledged effect neither position nor offset moves |
| EventFlow.RunHolds | backend/internal/events/durability.go:55-102 | The invariant over every run of appends, publications, consumption, faults and crashes; nothing durable is lost |
| EventFlow.CommittedIsApplied | backend/internal/events/durability.go:87-102 | A committed offset means that its effect is applied, and stays applied |
| EventFlow.DrainedIsExactlyOnce | backend/internal/events/durability.go:55-57 | Once the log is drained an event has been applied once if it is in the journal and never otherwise, across retries, duplicates, crashes and relocation |
| Ingress.BindAll | backend/services/ingress/handler.go:178-193 | Succeeds exactly when every element is bound to a usable slice within the expansion budget, and keeps their order; the error tells which of the two failed |
| Ingress.AppendAll | backend/services/ingress/handler.go:195-207 | Succeeds exactly when every append is acknowledged in time, and then every slice's record is in the log of its own topic and key |
| Ingress.ServeHTTP | backend/services/ingress/handler.go:100-223 | 200 is answered exactly when every check, bind and append succeeded in time, and then the due record of every parsed element is in the log of the topic of its own lane, region and cell; any other answer names its cause; unless everything was bound nothing is appended; no outcome takes a record away |
| Ingress.JournalledIsAppliedOnce | backend/internal/events/durability.go:55-57 | From any reachable state an event in the journal has been applied exactly once when the log is drained |
| Ingress.ServeAndDrain | backend/services/ingress/handler.go:97-99 | When 200 was answered and the log has been drained, the event of every parsed element has been applied exactly once, whatever happened since |
| Signing.FramingInjective | backend/services/webhook-dispatcher/signing/signature.go:89-94 | The dots make the message injective over timestamp, delivery and body |
| Signing.HexRoundTrip | backend/services/webhook-dispatcher/signing/signature.go:117 | The hex of the tag decodes to the tag |
| Signing.CheckRing | backend/services/webhook-dispatcher/signing/signature.go:145-157 | The nested loop accepts exactly one or two valid keys with distinct ids and secrets |
| Signing.VerifyValues | backend/services/webhook-dispatcher/signing/signature.go:166-190 | The key selection loop and the checks compute the verification of five values |
| Signing.SignIsExact | backend/services/webhook-dispatcher/signing/signature.go:78-119 | Exactly when a delivery is signed, and the five values it is sent with: the tag is the MAC of timestamp, dot, delivery, dot, body |
| Signing.VerifyIsExact | backend/services/webhook-dispatcher/signing/signature.go:158-191 | Exactly what is accepted: dot-free event and delivery, a canonical time within age, skew and the intervals of an unrevoked key of that name, and that key's tag over timestamp, dot, delivery, dot, body |
| Signing.SignedVerifies | backend/services/webhook-dispatcher/signing/signature.go:103-191 | The values from Sign verify with the original delivery, key, time and body digest exactly when the clock window and the rotation intervals allow it |
| SignedHeaders.SignedHeadersVerify | backend/services/webhook-dispatcher/signing/signature.go:103-191 | The same from raw headers in both languages, for any transport that keeps the five headers |
| SignedHeaders.SentHeadersAreCarried | backend/services/webhook-dispatcher/signing/signature.go:111-118 | Among any headers of other names the five sent ones are found by both languages |
| SignedHeaders.VerifyHeaders | backend/services/webhook-dispatcher/signing/signature.go:143-191 | Ring, bounds, the five selections and the checks, from a header map |
| Signing.VerifiedWasSigned | backend/services/webhook-dispatcher/signing/signature.go:143-191 | Whatever verifies is what Sign makes of these bytes with that key at the stated time |
| Signing.AcceptedSignatureBinds | backend/services/webhook-dispatcher/signing/signature.go:96-97 | One signature accepted twice under a key names one delivery, one time and one body, or else exhibits two messages with one MAC |
| Signing.ValueVerifiersAgree | backend/sdk/python/greeto_webhooks/signature.py:152-164 | On the same five values the Python verifier returns what the Go verifier returns |
| SignedHeaders.VerifiersAgree | backend/sdk/python/greeto_webhooks/signature.py:119-164 | On the same received pairs the two verifiers return the same result exactly within Python's size limits and without a timestamp or signature header divided by U+017F, or where both refuse |
| HeaderFields.One | backend/services/webhook-dispatcher/signing/signature.go:121-134 | Finds a value exactly when all spellings of the name together have exactly one |
| HeaderFields.GroupedValues | backend/services/webhook-dispatcher/signing/signature.go:121-134 | Go finds in the filed pairs exactly the single value over all of its spellings |
| HeaderFields.HeadersAgree | backend/sdk/python/greeto_webhooks/signature.py:145-149 | The two languages find the same value, or none, exactly when the pairs are not divided: neither one Python value beside Go-only ones, nor a single Go-only value |
| HeaderFields.HeadersDisagreeAtLongS | backend/sdk/python/greeto_webhooks/signature.py:145-149 | For every ASCII name with an s both kinds of division happen |
| SignedHeaders.OnlyTwoNamesDivide | backend/services/webhook-dispatcher/signing/signature.go:161-165 | The event, delivery and key headers are never divided |
| SignedHeaders.SignatureHeaderDivides | backend/services/webhook-dispatcher/signing/signature.go:165 | The signature header is, both ways |
| SignedHeaders.TimestampHeaderDivides | backend/services/webhook-dispatcher/signing/signature.go:163 | The timestamp header is, both ways |
| HeaderFields.SelectSole | backend/services/webhook-dispatcher/receiving/event.go:90-98 | Finds exactly the only spelling of a name with one value of at most 256 bytes |
| SignedHeaders.Select | backend/services/webhook-dispatcher/receiving/event.go:83-103 | The five selections of VerifyEvent within its bound on names |
| Receiving.GoVerifyEvent | backend/services/webhook-dispatcher/receiving/event.go:75-114 | From the header map: selects within bounds, authenticates first, then compares the body's own event_id with the signed-for header |
| Receiving.PyVerifyEvent | backend/sdk/python/greeto_webhooks/event.py:171-216 | The same from the received pairs, with Python's bounds and scanner |
| Receiving.EventVerifiersAgree | backend/sdk/python/greeto_webhooks/event.py:171-216 | On the same received request both programs decide alike, within Python's size limits and unless U+017F divides the timestamp or the signature header |
| Receiving.SignedDocumentIsReceived | backend/services/webhook-dispatcher/receiving/event.go:64-74 | A document signed under its own event_id and sent with the signed headers among any others is received in both languages as exactly that event when limits, window and rotation allow it, and refused with the stated error otherwise |
| Receiving.VerdictIsExact | backend/services/webhook-dispatcher/receiving/event.go:75-114 | An event exactly for limits in range, an accepted proof and a document with the header's event_id; a limits error exactly for limits out of range, an envelope error exactly for a proven body that is no such document |
| Receiving.EventIsAuthentic | backend/services/webhook-dispatcher/receiving/event.go:105-113 | An event is a document with that event_id, signed as delivered under one of the endpoint's keys, with the header's delivery and the digest of its own bytes |
| ReceiverGate.CounterIsExact | backend/services/webhook-dispatcher/receiverhttp/handler.go:74-118 | Over every interleaving active is the number of admitted unfinished requests, within MaxConcurrent, and the drained channel is closed exactly when draining with nothing left, at most once |
| ReceiverGate.DrainingOnlyFinishes | backend/services/webhook-dispatcher/receiverhttp/handler.go:77-79 | Once draining nothing is admitted: what is live is what was live and has not finished |
| ReceiverGate.DrainEndsWithTheLastRequest | backend/services/webhook-dispatcher/receiverhttp/handler.go:83-117 | Drain's wait ends exactly when every request that was live has finished, and stays ended |
| ReceiverGate.Handler.TryAdmit | backend/services/webhook-dispatcher/receiverhttp/handler.go:74-82 | Admits exactly one more within the bound while not draining |
| ReceiverGate.Handler.Leave | backend/services/webhook-dispatcher/receiverhttp/handler.go:83-90 | Gives one admission back and closes the channel after the last; the channel is never closed twice |
| ReceiverGate.Handler.DrainAndWait | backend/services/webhook-dispatcher/receiverhttp/handler.go:96-118 | Marks and waits; succeeds exactly when nothing is live any more, and never reopens admission |
| ReceiverHttp.Authenticate | backend/services/webhook-dispatcher/receiverhttp/handler.go:249-307 | From the keys to the gate: yields the event exactly when the inbox may be asked about it; 401 exactly on a rejected proof |
| ReceiverHttp.Handle | backend/services/webhook-dispatcher/receiverhttp/handler.go:200-330 | 204 exactly when every check passed and the inbox answered with a matching receipt; 401 and 409 exactly on a rejected proof and a conflicting delivery; every other answer names its cause; the inbox is asked only about a verified, permitted event of this request |
| ReceiverHttp.ServeHTTP | backend/services/webhook-dispatcher/receiverhttp/handler.go:158-330 | On every path, panics included, the admission is given back and one report is answered; 204 means a matching receipt and, over an inbox that keeps its contract, that this delivery is filed with this identity; 401 and 409 exactly on a rejected proof and a conflicting delivery; without admission nothing happens |
| ReceiverHttp.PresentedIff | backend/services/webhook-dispatcher/receiverhttp/handler.go:200-307 | The inbox is asked exactly about requests that pass every bound, port and context check and whose signed body identifies its event |
| ReceiverHttp.AcknowledgedIsAuthentic | backend/services/webhook-dispatcher/receiverhttp/handler.go:276-311 | What is put to the inbox is the endpoint's scope, the event_id of its own document, the signed delivery and the digest of the very bytes received, signed as delivered under a key of the endpoint |
| ReceiverHttp.RedeliveryIsDecided | backend/services/webhook-dispatcher/receiverhttp/types.go:63-71 | After an acknowledged request a later one of the same delivery is acknowledged exactly when it brings the same event and body digest, and conflicts exactly otherwise, whatever was accepted in between |
| ReceiverHttp.Redelivered | backend/services/webhook-dispatcher/receiverhttp/handler.go:308-330 | Two requests of one delivery served one after the other: the second is answered 204 for the same event and bytes and 409 for any other |
| ReceiverHttp.DeliveryIsAcceptedOnce | backend/services/webhook-dispatcher/receiverhttp/types.go:63-71 | One delivery names one event and one body for good: a redelivery gets the first reference, anything else under it conflicts |

## Left out

- The front end, `tools/` other than the dependency check, `cmd/`, health, recovery, observability and event-outcome helpers: single branches or loops that would add easy members.
- Real cryptography, DNS, TCP, TLS, `net/http`, `mime` and the address and URL policy of `egress/policy.go`: library behaviour or table lookup; what they answer is an argument.
- `encoding/json`'s tokenizer, Python's `raw_decode` and the regular expressions have their RFC 8259 and character-class meaning; for malformed input the Go tokenizer may do anything that is not a clean whole value (`ReadersAgree.Tokenizes`).
- `strings.ToLower` is an arbitrary function in the placement decoder's walk; the typed decoding after that walk is a function of the bytes (`Trust.decode`).
- `http.ParseTime` is only assumed to invert `Format(http.TimeFormat)` on what it parsed (`Egress.Sound`); `unicode.IsSpace` and `trim()` are character tables.
- Text lengths: Dafny strings count code points. The 128-unit bound of a Retry-After value, the 2048-unit bound of an evidence reference and the 256-unit bound of a header value are in bytes or UTF-16 units in the source; they differ only for non-ASCII text.
- HeaderFields.GroupedValues: files the pairs under the names as received; net/http's canonical spelling merges names that differ in ASCII case, which changes no count of values but can bring the number of names under 128.
- PlacementDirectory.Directory.InstallBegin: the early returns on a cancelled context before anything is decided are the InstallAbort step.
- Egress.RoundTrip: the round trip and the dial hook are one atomic step; a hook that passes its context check after the failed round trip was already classified as blocked is not modelled, since net/http may detach its dial from the request.
- Egress.Send: stages, timings, byte counts and `headersFor` are left out; each of its external answers is one field of Outside.
- Ingress.BindAll: takes the binder's answers computed beforehand, since binding reads the directory and changes nothing else; authority references and record identities are well formed by construction and not checked again.
- EventFlow.DrainedIsExactlyOnce: assumes one projection shared by all partitions, so that deduplication also covers a relocated topic; per-cell projections would have to share their markers.
- StatusProgress.FinishableIff, StatusProgress.NeverStuck: need enough idempotency keys the actor has not used, three per package; the key space is finite, and evidence and authorization are taken as given.
- StatusService.Service.ChangeStatus: identifiers are strings with the source's patterns; the random event identifier is an argument; audit and outbox rows are the log.
- Recorder.Record: the deadline of at most 30 seconds and cancellation between the calls are faults of the read and of the commit.
- ReceiverHttp.ServeHTTP: header bounds, media type, encoding and deadlines are yes-or-no arguments; reports, stages and the response text are left out.
- PythonReader.Reader: `container` is split into Container, Entries, Entry, Name, Separator and Record, one per part of its loop.
- The Python signer: `sign_webhook` and Go's `Sign` are the same expressions, so there is one function for both.
- Envelope encryption, Kafka policy validation and the constructors' configuration checks, except `planner.New`.
