# Underpass runtime: a verified model of its core

The runtime lets agents invoke tools inside sessions. This project models the parts of it whose
correctness does not show in any single function and proves what they promise, in Dafny 4.11.
`dafny verify dfyconfig.toml` checks everything.

| file | models |
|---|---|
| `Outbox.dfy` | the transactional outbox and its relay, as a step system over publishes, reads, forwards, trims, faults and crashes, and as code; the retry delays |
| `Lifecycle.dfy` | `InvokeTool` as a step system: any number of calls interleaving at every store, event, audit, limiter and tool operation |
| `Service.dfy` | the code of one `InvokeTool` call over the store and the limiter, with failing saves, and its refinement of the step system |
| `Limiter.dfy` | per-minute windows and in-flight slots |
| `InvocationStore.dfy`, `ValkeyStore.dfy` | the two invocation stores and their correlation indexes |
| `Policy.dfy`, `Listing.dfy` | the static policy; tool listing and its agreement with every run |
| `Paths.dfy` | `filepath.Clean` as a stack machine, allow-lists, path resolution |
| `Bandit.dfy`, `Ranking.dfy` | the diagonal LinUCB learner; recommendation scores and ranking |
| `TextEdit.dfy` | `fs.edit` and `fs.insert` |
| `Prometheus.dfy` | label blocks and histogram rows |
| `Dependencies.dfy` | `go list` and npm dependency inventories |
| `GoStrings.dfy`, `Sorting.dfy`, `Common.dfy` | string operations, sorting and small shared types |

How the model reads the code:

- A remote call that reports an error may or may not have taken effect; both are modelled.
- Clocks, random draws, the tool, the authorizer's errors, the runtime and the stores' failures
  are arbitrary inputs. Event and invocation IDs are distinct. One relay loop is alive, and each
  LTRIM takes effect at most once.
- Floating-point numbers are real numbers. Integers are unbounded except where wrap-around can
  matter: relay delays (64-bit durations), histogram counters (unsigned 64-bit) and decimal
  arguments of the policy.
- Strings are sequences of characters, except in the Valkey store, which is modelled on bytes.
  The character map behind lower-casing is a parameter.

Where a promise turns out to hold only under a condition, the condition is proved to be exact and
the failing inputs are exhibited:

- Retry delays follow min(poll * 2^k, 30 s) exactly for poll intervals below 2^62 ns.
- Both levels of the rate check keep the limit of a key exactly when no minute of that key comes
  back after the clock moved on; checks of other keys may come in any order.
- The in-memory correlation index joins session, tool and correlation ID with bars. With the
  catalog's bar-free tools, two requests can share a key exactly when one session ID is the other
  followed by a bar and the other's tool, ending there or going on with a bar and no white space.
  Sessions `a` and `a|fs.read` are such a pair. The Valkey key has no such pairs.
- Principals share a rate window exactly when trimmed and lower-cased tenant and actor agree, as
  long as tenants hold no colon; tenant `a:b` with actor `c` shares one with `a` and `b:c`.
- `fs.edit` guarantees a unique match for every file exactly when the old text does not overlap
  itself: `aa` is replaced in `aaa` although it occurs twice there.
- A one-star pattern is glob matching on all values exactly when it is not the bare star (which
  refuses the blank value), does not end in `.>` (`x*.>` refuses `xa.>`), and its prefix and suffix
  do not overlap (`ab*ba` accepts `aba`).
- The npm walk reports truncation whenever any name follows the last kept package, even if
  no further package exists, as in `{"a": {"version": "1"}, "b": null}` with a maximum of 1; the
  line parsers report it exactly when another distinct entry exists.
- A successful run whose second save fails emits neither Completed nor an audit record, so the
  authorizer error is not the only path without a closing event; `ServiceCode.SilentSuccess` is
  such a run.
- An allow-list entry `.` refuses paths whose first component merely starts with two dots.
- Comments in `scorer.go` rank HyLinUCB above Thompson for 20 samples and more; the code uses it
  for 20 to 99 only, and so does the model.

## Model

| member | source | states |
|---|---|---|
| `Outbox.ReadThenTrim` | internal/adapters/eventbus/outbox.go:80-102 | what a read returns and what the matching trim leaves are together the list, for every list and positive batch size |
| `Outbox.StepHolds` | internal/adapters/eventbus/outbox_relay.go:144-171 | every publish, read, forward, fault, trim and crash keeps the invariant, and the delivery mark never falls |
| `Outbox.OutboxSafety` | internal/adapters/eventbus/outbox_relay.go:105-171 | over every interleaving: publish log = trimmed prefix + pending list, every trimmed event was delivered, the delivered log without repeats is the publish order up to a mark |
| `Outbox.ConsumerSeesPrefix` | internal/adapters/eventbus/outbox_relay.go:144-171 | with distinct IDs a consumer that drops repeats sees a prefix of publish order, all of it once the list is empty |
| `Outbox.DoubleTrim` | internal/adapters/eventbus/outbox.go:97-102 | a trim applied twice loses an undelivered event exactly when it reaches beyond the delivered prefix |
| `Outbox.Recovers` | internal/adapters/eventbus/outbox_relay.go:144-171 | from every reachable idle state a fault-free continuation empties the list with everything delivered |
| `Outbox.PublishedCanArrive` | internal/adapters/eventbus/outbox_relay.go:144-171 | after any run, an event whose append takes effect can still be delivered by the relay alone, even after a crash |
| `Outbox.DedupLoses` | internal/adapters/eventbus/outbox_relay.go:153-157 | dropping repeats by event ID keeps every ID once |
| `Outbox.OutboxPublisher.Publish` | internal/adapters/eventbus/outbox.go:58-67 | an effective append adds the event at the end; a lost one changes nothing; success means effect |
| `Outbox.OutboxPublisher.Read` | internal/adapters/eventbus/outbox.go:80-94 | with a positive batch size exactly the first min(batch size, length) events come back, and none is removed |
| `Outbox.OutboxPublisher.Ack` | internal/adapters/eventbus/outbox.go:97-102 | an effective ack of n > 0 leaves what follows the first min(n, length) events; if nothing went, an error was reported |
| `Outbox.OutboxRelay.constructor` | internal/adapters/eventbus/outbox_relay.go:37-74 | a batch size that is not positive falls back to 100 |
| `Outbox.OutboxRelay.DrainAndForward` | internal/adapters/eventbus/outbox_relay.go:144-171 | one cycle with any faults is a run of the step system; it delivers a prefix of the batch of min(batch size, length) events, trims only a batch it delivered whole, and reports what it trimmed |
| `Outbox.OutboxRelay.ForwardAll` | internal/adapters/eventbus/outbox_relay.go:153-157 | events are delivered in order up to the first failure |
| `Outbox.BackoffClosedForm` | internal/adapters/eventbus/outbox_relay.go:107-130 | after k >= 1 failures the delay is min(poll * 2^k, 30 s) |
| `Outbox.BackoffExact` | internal/adapters/eventbus/outbox_relay.go:107-130 | the closed form holds for all k exactly when doubling the poll interval fits a 64-bit duration |
| `Outbox.Loop` | internal/adapters/eventbus/outbox_relay.go:105-142 | each pause is the back-off of the failures in a row before it, the poll interval after an empty cycle, none after a busy one |
| `Outbox.PauseMeaning` | internal/adapters/eventbus/outbox_relay.go:105-142 | no pause after a cycle that moved events, the poll interval after an empty one, and after a failure with k failures right before it min(poll * 2^k, 30 s) |
| `Lifecycle.SlotSafety` | internal/app/service.go:1143-1167 | in every interleaving the in-flight count of a session is the number of calls holding a slot, within the limit, with no entry when there are none |
| `Lifecycle.ToolOnlyBehindGates` | internal/app/service.go:354-391 | a tool runs once, only after rate, runtime and policy checks passed and with a slot held; the slot is given back last |
| `Lifecycle.EndedBookkeeping` | internal/app/service.go:345-391 | every ended invocation: two saves, Running then terminal; one audit with that status; Started then at most one of Completed and Denied; one release per slot; the stored record carries the terminal status |
| `Lifecycle.EndedStatus` | internal/app/service.go:354-391 | over every run: an ended call succeeded exactly when its tool ran without error and quota, artifacts and schema were all in order; it was denied exactly when a gate said no, the result was over quota or the error carries a denial code; it failed otherwise |
| `Lifecycle.RunStatusMeaning` | internal/app/service.go:370-375 | which answers of a tool run lead to which status |
| `Lifecycle.AnswersLogged` | internal/app/service.go:422-464 | the log tells what each gate and the tool answered |
| `Lifecycle.HoldersByLog` | internal/app/service.go:1143-1167 | in every interleaving the calls holding a slot are those whose log shows one granted and not freed |
| `Lifecycle.AtMostOnce` | internal/app/service.go:294-301 | once a key has been saved, every later call for it returns the ID saved first and runs no tool |
| `Lifecycle.OncePerKey` | internal/app/service.go:294-301 | once the first save of a call with a correlation ID is confirmed, no later call of the same key gets an ID or runs a tool, in any continuation |
| `Lifecycle.StepsBounded` | internal/app/service.go:294-391 | whatever the other calls do, a call takes at most twelve steps of its own |
| `Lifecycle.Finishes` | internal/app/service.go:294-391 | from every state, even when every collaborator fails, a call's own steps bring it to an end |
| `Lifecycle.DedupHit` | internal/app/service.go:407-414 | the lookup of a saved key finds the ID saved first, whatever was saved later |
| `Lifecycle.StepInv` | internal/app/service.go:294-391 | each step of any call keeps log, slot counts, ID ownership and stored statuses consistent |
| `Lifecycle.AdvanceTrace` | internal/app/service.go:354-391 | each move of a call extends its trace by exactly what it logs |
| `ServiceCode.Service.InvokeTool` | internal/app/service.go:294-391 | for every answer of the collaborators and every fault of the two saves, the call is a run of the step system that ends in the store's history and the limiter's slots; it ends succeeded, denied or failed as the answers of the gates and of the run say, and its last confirmed save records that status |
| `ServiceCode.DecideStatus` | internal/app/service.go:354-391 | the status a call must end with, in terms of the answers of the gates and of the run |
| `ServiceCode.CallIsRun` | internal/app/service.go:294-391 | what one call does alone is a run of the step system, so the results over all interleavings speak about the code |
| `ServiceCode.SilentSuccess` | internal/app/service.go:516-521 | a run in which a successful call's second save fails: no audit record and no closing event, the slot given back |
| `ServiceCode.Service.StoreInvocation` | internal/app/service.go:666-671 | success is reported only when the record is in the history; after an error it may or may not be |
| `ServiceCode.Service.ValidateToolRequest` | internal/app/service.go:395-416 | a call ends early for a missing session or tool, for a failed lookup of a correlation ID, or with the ID saved first for its key |
| `ServiceCode.Service.AuthorizeToolInvocation` | internal/app/service.go:422-464 | the first failing gate decides; the rate windows are charged whatever comes after; a slot is held exactly when the call may run |
| `ServiceCode.Service.CompleteToolInvocation` | internal/app/service.go:478-527 | a run is saved with the status its answers lead to, audited and announced accordingly; only a success reacts to a failed save, by doing neither |
| `ServiceCode.Service.DenyInvocation` | internal/app/service.go:531-552 | a denied invocation is audited and announced as denied, whether or not its save takes effect |
| `ServiceCode.ReleaseUndoesAcquire` | internal/app/service.go:1143-1167 | releasing a granted slot restores the in-flight map |
| `Limiter.RateLimit` | internal/app/service.go:1030-1112 | at both levels, calls allowed per key in a minute stay within the limit for every sequence of checks in which no minute of that key comes back; other keys may come in any order |
| `Limiter.RateLimitExact` | internal/app/service.go:1030-1112 | the two-level check keeps every limit of a key exactly when no minute of that key comes back after the clock moved on |
| `Limiter.TallyIsPassed` | internal/app/service.go:1030-1103 | with the other level's limit off, the calls allowed for a key are those its window counter passes on that key's minutes, in any order |
| `Limiter.LimitExact` | internal/app/service.go:1030-1103 | with one level's limit only, exactly the smaller of the limit and the number of the key's checks passes in each minute |
| `Limiter.SharedWindow` | internal/app/service.go:1105-1112 | sessions share a window exactly when their trimmed IDs agree; principals with colon-free tenants exactly when trimmed and lower-cased tenant and actor both agree; a blank principal stands for its trimmed session |
| `Limiter.PrincipalKeyCollides` | internal/app/service.go:1105-1112 | with colons in tenants two different principals can share a window |
| `Limiter.Independent` | internal/app/service.go:1030-1103 | checks never change the answers of checks they share no window with: dropping all others leaves the answers as they were |
| `Limiter.WindowMinute` | internal/app/service.go:1039-1040 | a window is 60 seconds of the clock |
| `Limiter.WindowLimitExact` | internal/app/service.go:1075-1103 | a window counter keeps every limit exactly when no minute comes back after the clock moved on |
| `Limiter.PassedExact` | internal/app/service.go:1075-1103 | in each minute exactly as many calls pass as were made, up to what the limit leaves |
| `Limiter.OutOfOrderExceeds` | internal/app/service.go:1075-1103 | with a returning minute two calls pass at limit 1 |
| `Limiter.PrincipalDenialIsCharged` | internal/app/service.go:1044-1072 | whatever the principal check says, a call within the session limit is counted in its session window |
| `Limiter.InvocationQuotaLimiter.Allow` | internal/app/service.go:1030-1073 | the locked check is one step of the two-level window specification |
| `Limiter.InvocationQuotaLimiter.IncrementQuotaWindowCounter` | internal/app/service.go:1075-1103 | a counted key passes exactly while its minute has room and then takes one of it; other keys' windows stay; no window counts beyond the limit |
| `Limiter.InvocationQuotaLimiter.AcquireConcurrency` | internal/app/service.go:1143-1156 | a slot is granted exactly below the limit and then counted once; other sessions are unchanged; the count never passes the limit |
| `Limiter.InvocationQuotaLimiter.ReleaseConcurrency` | internal/app/service.go:1158-1167 | the count falls by one and the entry goes exactly with the last slot; other sessions are unchanged |
| `InvocationStore.FindScansHistory` | internal/app/invocation_store_memory.go:27-75 | after any history of saves a lookup returns the latest version of the record whose ID was saved first under the key, and nothing exactly when no save carried it |
| `InvocationStore.ReplayMeaning` | internal/app/invocation_store_memory.go:27-37 | the two maps hold the last version of every record and the first ID of every key |
| `InvocationStore.FirstMeaning` | internal/app/invocation_store_memory.go:27-37 | the first of a key is the first save that carries it |
| `InvocationStore.LastMeaning` | internal/app/invocation_store_memory.go:27-44 | the last of an ID is the save after which none has it |
| `InvocationStore.LookupKeyInjective` | internal/app/invocation_store_memory.go:67-75 | for bar-free tools, equal keys mean the same trimmed request unless one session goes on from the other with a bar and the other's tool |
| `InvocationStore.LookupKeyExact` | internal/app/invocation_store_memory.go:67-75 | for bar-free tools, some correlation IDs make different requests share a key exactly when one session is the other followed by a bar and the other's tool, and ends there or goes on with a bar and no white space |
| `InvocationStore.LookupKeyCollides` | internal/app/invocation_store_memory.go:67-75 | two sessions of catalog tools that share a key |
| `InvocationStore.InMemoryInvocationStore.Save` | internal/app/invocation_store_memory.go:27-37 | a save extends the history that the two maps replay |
| `InvocationStore.InMemoryInvocationStore.Get` | internal/app/invocation_store_memory.go:39-44 | returns the last saved version |
| `InvocationStore.InMemoryInvocationStore.FindByCorrelation` | internal/app/invocation_store_memory.go:46-65 | answers as a scan of the save history would |
| `ValkeyStore.EscapeRoundTrip` | internal/adapters/invocationstore/valkey_store.go:151-157 | percent-decoding (section 2.1 of RFC 3986) undoes query escaping on every byte string |
| `ValkeyStore.CorrelationKeyInjective` | internal/adapters/invocationstore/valkey_store.go:144-158 | two requests share a correlation key exactly when they trim to the same full triple |
| `ValkeyStore.KeySpacesDisjoint` | internal/adapters/invocationstore/valkey_store.go:119-121 | no correlation key equals the primary key of a service-made ID |
| `ValkeyStore.ReplayMeaning` | internal/adapters/invocationstore/valkey_store.go:80-101 | in one key space, records hold their last version and index entries the first ID |
| `ValkeyStore.FindScansHistory` | internal/adapters/invocationstore/valkey_store.go:123-142 | for every history of writes, index entries lost or not, a lookup answers as a scan of it, and never meets a value of the wrong kind |
| `ValkeyStore.ScanMeaning` | internal/adapters/invocationstore/valkey_store.go:160-198 | what a lookup finds has the ID, request and payload of the last version of the record indexed first for the triple, without output and logs |
| `ValkeyStore.FirstForConcat` | internal/adapters/invocationstore/valkey_store.go:94-99 | the first for a triple comes from the earlier part of a history if that has one |
| `ValkeyStore.LastMeaning` | internal/adapters/invocationstore/valkey_store.go:103-117 | the last version of an ID is the write after which none has it |
| `ValkeyStore.TrimMeaning` | internal/adapters/invocationstore/valkey_store.go:145-147 | trimming takes white-space characters off both ends and nothing else |
| `ValkeyStore.ValkeyInvocationStore.Save` | internal/adapters/invocationstore/valkey_store.go:80-101 | exactly which faults leave the record unwritten, written without index, or written and indexed |
| `ValkeyStore.ValkeyInvocationStore.FindByCorrelation` | internal/adapters/invocationstore/valkey_store.go:123-142 | answers as a scan of the effective writes; nothing for a blank part |
| `Paths.CleanIdempotent` | internal/adapters/tools/path.go:15-26 | Clean is idempotent and keeps root and components, on every string |
| `Paths.CleanLeads` | internal/adapters/tools/path.go:15-26 | raw and cleaned path lead to the same place from every directory, component by component |
| `Paths.CleanShape` | internal/adapters/tools/path.go:15-26 | the cleaned text is its components with nothing to spare, `.` or `/` when there are none |
| `Paths.NameExtends` | internal/adapters/tools/path.go:15-26 | a name goes on the end, an empty or `.` component changes nothing |
| `Paths.ParentUndoes` | internal/adapters/tools/path.go:15-26 | p/x/../q cleans as p/q, for every text p and q and every name x |
| `Paths.ParentAtTop` | internal/adapters/tools/path.go:15-26 | with no name to take back, `..` stays on a relative path and vanishes at a root |
| `Paths.CoversByComponents` | internal/adapters/policy/static_policy.go:1025-1040 | for every entry the string test is a test on whole components, with the cases of entries that clean to / and to . spelled out |
| `Paths.WithinExists` | internal/adapters/policy/static_policy.go:1025-1040 | a path is within the list exactly when some entry covers it |
| `Paths.FirstEntryExact` | internal/adapters/policy/static_policy.go:345-347 | replacing the default by a first entry keeps every allowed path exactly when the entry cleans to the workspace |
| `Paths.ResolveExact` | internal/adapters/tools/path.go:10-52 | for every workspace, list and input: resolution succeeds exactly when the cleaned path does not start with `..`, the policy's check accepts the raw path and the workspace has room; the result is the workspace's components followed by the path's |
| `Paths.ResolvedLeads` | internal/adapters/tools/path.go:10-32 | the resolved path leads from the workspace along the request's cleaned names, and for a relative request to where the request as written leads |
| `Paths.ParentLeads` | internal/adapters/tools/path.go:15-18 | a path that backs out shows it at the head of its cleaned form |
| `Policy.LookupField` | internal/adapters/policy/static_policy.go:1009-1023 | the cursor walk finds what the recursive lookup selects |
| `Policy.LookupMeaning` | internal/adapters/policy/static_policy.go:1009-1023 | a lookup finds exactly the value to which the path leads node by node |
| `Policy.ExtractFieldValues` | internal/adapters/policy/static_policy.go:413-445 | the strings a field selects, none when absent, an error for a wrong shape |
| `Policy.FieldValuesMeaning` | internal/adapters/policy/static_policy.go:413-445 | a field has exactly the texts its value holds, none when it selects nothing, and fails otherwise |
| `Policy.StringValuesMeaning` | internal/adapters/policy/static_policy.go:865-892 | namespace and registry fields take one text or a list |
| `Policy.ParseAllowlist` | internal/adapters/policy/static_policy.go:914-932 | the set of non-blank trimmed items |
| `Policy.AllowlistAppend` | internal/adapters/policy/static_policy.go:914-932 | appending ",entry" adds exactly the entry's items |
| `Policy.NatsSubjectMatch` | internal/adapters/policy/static_policy.go:980-1007 | the indexed loop with its shortcut decides the recursive token specification |
| `Policy.TokensMatchSelf` | internal/adapters/policy/static_policy.go:981-983 | the equality shortcut changes no answer |
| `Policy.TokensMatchMeaning` | internal/adapters/policy/static_policy.go:990-1006 | a match is token by token to the first `>`, or over equal lengths |
| `Policy.TokensWiden` | internal/adapters/policy/static_policy.go:990-1006 | `*` for a literal token and `>` for a tail only widen |
| `Policy.OneStarExact` | internal/adapters/policy/static_policy.go:955-978 | for every one-star pattern and value the match is glob matching when the pattern does not end in `.>`, the value is not blank and holds prefix and suffix side by side; outside, what each class of inputs gets instead |
| `Policy.OneStarPatterns` | internal/adapters/policy/static_policy.go:955-978 | a one-star pattern is glob matching on all values exactly when it is not the bare star, does not end in `.>`, and its prefix and suffix do not overlap |
| `Policy.OneStarOverlap` | internal/adapters/policy/static_policy.go:967-971 | `ab*ba` matches `aba`, which is not of that form |
| `Policy.OneStarTail` | internal/adapters/policy/static_policy.go:964-966 | `x*.>` refuses `xa.>`, which is of the form |
| `Policy.OneStarBlank` | internal/adapters/policy/static_policy.go:958-960 | `*` refuses the blank value |
| `Policy.OtherPatterns` | internal/adapters/policy/static_policy.go:955-978 | patterns with no star or several match the value itself, a literal prefix up to a final `>`, or a prefix that ends in a separator |
| `Policy.FamilyTable` | internal/adapters/policy/static_policy.go:510-863 | the metadata key of each governed family and what an entry of its list admits |
| `Policy.RegistryMeaning` | internal/adapters/policy/static_policy.go:894-912 | the registry of an image is what precedes the first slash if that looks like a host, else docker.io |
| `Policy.NumberMeaning` | internal/adapters/policy/static_policy.go:292-302 | numbers are cut off toward zero |
| `Policy.TextMeaning` | internal/adapters/policy/static_policy.go:310-313 | decimal text of a 64-bit number is read back, signed or not |
| `Policy.AuthorizeMeaning` | internal/adapters/policy/static_policy.go:32-137 | from the input's fields: allowed exactly when scope and risk suit the roles, approval is given when required, the profile and environment a tool needs are there, and the arguments keep the rules or, for specialist tools, the limits; approval_required exactly when only approval is missing after the role gates; environment_mismatch exactly when all but the environment holds |
| `Policy.ArgumentsMeaning` | internal/adapters/policy/static_policy.go:338-560 | arguments pass exactly when every path, argument and listed field holds texts that each keep the field's rules |
| `Policy.ValueAllowedMeaning` | internal/adapters/policy/static_policy.go:451-508 | the rules of an argument text: not blank, length, no denied part or prefix, allowed values or else an allowed prefix |
| `Policy.ListingComplete` | internal/adapters/policy/static_policy.go:32-137 | what is allowed for any arguments and approval flag is allowed for {} with approval |
| `Policy.AllowedPathsResolve` | internal/adapters/policy/static_policy.go:338-376 | past the specialist gate, an allowed path argument is never rejected for the allow-list when it is resolved, and resolves exactly when it stays in a workspace that has room |
| `Policy.AllowedValuesMatch` | internal/adapters/policy/static_policy.go:541-560 | past the specialist gate, every non-blank value of a listed family matches its allow-list |
| `Policy.AuthorizeMonotone` | internal/adapters/policy/static_policy.go:32-137 | more roles, approval, more path entries or more allow-list items never turn an allow into a deny |
| `Policy.GrantsKeepAllow` | internal/adapters/policy/static_policy.go:282-376 | the four concrete grants, on the metadata text as stored |
| `Listing.ListTools` | internal/app/service.go:259-292 | exactly the catalog entries that pass both gates for {} with approval, sorted by name |
| `Listing.SupportedMeaning` | internal/app/service.go:949-982 | cluster tools need Kubernetes, and the delivery tools among them the flag as well |
| `Listing.ListedExactly` | internal/app/service.go:268-286 | a tool is listed exactly when some arguments and approval flag pass the runtime and policy gates |
| `Listing.UnlistedNeverRuns` | internal/app/service.go:268-286 | over every interleaving in which the runtime check and the authorizer answer as modelled, a call for a tool that is not listed for its session never runs it, whatever its arguments and approval flag |
| `Bandit.OrderIndependent` | internal/app/hylinucb.go:125-130 | the accumulators depend on the outcomes, not on their order |
| `Bandit.ConfidenceNeverGrows` | internal/app/hylinucb.go:96-105 | precision stays >= 1 and never falls, and the confidence term of a fixed vector never grows |
| `Bandit.ExplorationDiesOut` | internal/app/hylinucb.go:96-105 | after k outcomes at the same features the confidence term there is at most d/k |
| `Bandit.RidgeExact` | internal/app/hylinucb.go:93-99 | a weight minimises theta^2 + sum of (r - theta * x_i)^2 over the outcomes seen exactly when it is b_i / a_i |
| `Bandit.Arm.UcbMeaning` | internal/app/hylinucb.go:93-105 | the score is the clamped prediction of the weights that fit the rewards seen best, plus a quarter of the root of the summed shares x_i^2 / a_i |
| `Bandit.Arm.Update` | internal/app/hylinucb.go:125-130 | the in-place loop keeps aDiag[i] = 1 + sum of x_i^2 and bVec[i] = sum of x_i * r over the whole history |
| `Bandit.Arm.Score` | internal/app/hylinucb.go:93-105 | the loop computes that score, in [0,1] |
| `Bandit.Instance.Update` | internal/app/hylinucb.go:108-131 | only the tool's arm changes; an unknown tool starts from the identity |
| `Bandit.Instance.Score` | internal/app/hylinucb.go:83-106 | every score is in [0,1]; 0.75 for an unknown arm |
| `Ranking.HundredthsWithin` | internal/app/recommender.go:382-382 | rounding to hundredths keeps bounds given in hundredths |
| `Ranking.HundredthsMonotone` | internal/app/recommender.go:382-382 | rounding keeps order |
| `Ranking.HundredthsNear` | internal/app/recommender.go:382-382 | rounding moves a score by at most half a hundredth |
| `Ranking.CountHintMatches` | internal/app/recommender.go:394-404 | the number of hint tokens found in name or description |
| `Ranking.HitsMeaning` | internal/app/recommender.go:394-404 | that number is how many tokens occur in the lower-cased name or description |
| `Ranking.ScoreTool` | internal/app/recommender.go:328-391 | from 1.00 down by the points of risk, side effects, approval and cost, up by 0.20 times the matched share of the hint, rounded to hundredths |
| `Ranking.ApplyTelemetryBoost` | internal/app/recommender.go:297-325 | from five invocations on the points for success, latency and denials are added and the sum rounded; below, nothing changes |
| `Ranking.ScoreLearned` | internal/app/scorer.go:32-57 | from ten samples on a boost of a quarter of the confidence, or the blend with the draw, less the points for missed service levels, rounded; below, nothing changes |
| `Ranking.WeightMeaning` | internal/app/scorer.go:42-43 | the weight a sample count gives under each blending scorer |
| `Ranking.HalvesAway` | internal/app/recommender.go:382-382 | halves are rounded away from zero |
| `Ranking.FinalWithin` | internal/app/recommender.go:137-173 | every final score is in [-0.50, 1.60] under every scorer, at most 1.35 unless the heuristic scorer is used |
| `Ranking.BoundsReached` | internal/app/scorer.go:111-132 | both ends of the interval are reached, the upper one with a hint of one two-character token |
| `Ranking.BetterNeverLowers` | internal/app/scorer.go:32-57 | better rates, latencies or confidence never lower a final score, provided the draw, taken as a measurement of its own, did not fall |
| `Ranking.BetterNeverDemotes` | internal/app/recommender.go:175-188 | under the same proviso, a kept tool whose measurements improve is kept at the same or an earlier position |
| `Ranking.SelectScorerFull` | internal/app/scorer.go:150-179 | the scorer ladder by sample thresholds, both directions |
| `Ranking.Recommend` | internal/app/recommender.go:137-173 | the breakdown starts with the heuristic score and sums exactly to the final score |
| `Ranking.RecommendTools` | internal/app/recommender.go:69-213 | the best min(k, n) tools by descending score, names deciding ties, with ranks 1..k; no tool left out scores higher than one kept, or as high with an earlier name; each score is the sum of its parts and within bounds |
| `TextEdit.SplitOnExact` | internal/adapters/tools/fs_tools.go:1277-1293 | cutting at the counted occurrences loses nothing and leaves no occurrence in a part |
| `TextEdit.EditChangesOnlyMatches` | internal/adapters/tools/fs_tools.go:1277-1293 | the exact error cases; replace-all is split-on-old joined with new and changes the length by count * (new - old); a single replace turns pre+old+post into pre+new+post at the leftmost occurrence |
| `TextEdit.UniqueExactlyBorderless` | internal/adapters/tools/fs_tools.go:1277-1293 | a count of one means a unique match in every file exactly when the old text does not overlap itself |
| `TextEdit.FsInsertAtLine` | internal/adapters/tools/insert_tools.go:123-144 | the result's lines are lines[:k] + inserted + lines[k:], k = min(line, number of lines) |
| `TextEdit.InsertLinesMeaning` | internal/adapters/tools/insert_tools.go:126-130 | the inserted lines spell the content with one newline at its end |
| `TextEdit.InsertUndone` | internal/adapters/tools/insert_tools.go:123-144 | deleting the inserted lines restores the original text |
| `TextEdit.TotalLines` | internal/adapters/tools/insert_tools.go:146-148 | the reported line count is the original's plus the inserted lines |
| `Prometheus.ScanEscape` | internal/app/metrics.go:128-131 | a reader of the text format recovers the raw value and stops at the closing quote, whatever follows |
| `Prometheus.EscapeImage` | internal/app/metrics.go:128-131 | escaping yields exactly the texts without bare quote, newline or stray backslash |
| `Prometheus.BlockInjective` | internal/app/otel_metrics.go:225-253 | printed blocks determine the printed labels, for names without an equals sign |
| `Prometheus.BlockOfSet` | internal/app/otel_metrics.go:225-253 | two label sets print the same block exactly when they are equal, in whatever order they come |
| `Prometheus.BlockText` | internal/app/otel_metrics.go:240-252 | a block is name="value" for each label, commas between, braces around |
| `Prometheus.RankMeaning` | internal/app/otel_metrics.go:255-266 | the tool comes first, then reason, status and task, then all others, the bucket bound last; by name within |
| `Prometheus.BoundIsLast` | internal/app/otel_metrics.go:255-266 | the bucket bound is printed after every other label |
| `Prometheus.PrometheusLabelBlock` | internal/app/otel_metrics.go:225-253 | the builder prints the block of the sorted labels |
| `Prometheus.HistogramRows` | internal/app/otel_metrics.go:168-189 | row i is the sum of the first i+1 buckets, on wrapping counters |
| `Prometheus.RowsRiseExact` | internal/app/otel_metrics.go:168-189 | rows never fall exactly when the true total fits the counter |
| `Prometheus.InfinityRowExact` | internal/app/otel_metrics.go:181-189 | the +Inf row is the sum of all buckets exactly when it fits the counter and nothing lies beyond the one overflow bucket |
| `Dependencies.DistinctMeaning` | internal/adapters/tools/dependency_tools.go:393-402 | an item is in the distinct list, at the place given by the keys before it, exactly when it is the first of its key; no key repeats |
| `Dependencies.Collect` | internal/adapters/tools/dependency_tools.go:393-402 | a known key changes nothing, a new one is kept unless the list is full |
| `Dependencies.KeyInjective` | internal/adapters/tools/dependency_tools.go:393-393 | keys tell entries apart for bar-free names |
| `Dependencies.SplitOutputLines` | internal/adapters/tools/fs_tools.go:1693-1704 | the trimmed non-empty lines in order |
| `Dependencies.PruneOne` | internal/adapters/tools/fs_tools.go:1693-1704 | a line is kept as its trimmed text exactly when it has one |
| `Dependencies.GoEntriesOne` | internal/adapters/tools/dependency_tools.go:374-391 | a line gives its first word and the version of the rest |
| `Dependencies.VersionMeaning` | internal/adapters/tools/dependency_tools.go:384-391 | the version is what follows the v of the first word that starts with one, else unknown |
| `Dependencies.ParseGoDependencyInventory` | internal/adapters/tools/dependency_tools.go:369-405 | the first max distinct entries in line order, truncated exactly when another distinct entry exists |
| `Dependencies.WalkSpelled` | internal/adapters/tools/dependency_tools.go:455-498 | for every tree the walk meets exactly the chains of names that lead through objects and their dependencies, each once, a package before what lies below it and siblings with all below them in name order |
| `Dependencies.PackageMet` | internal/adapters/tools/dependency_tools.go:477-505 | a package is met exactly when a chain of names leads to an object with that last name and stated version |
| `Dependencies.WalkExact` | internal/adapters/tools/dependency_tools.go:455-489 | truncated exactly when a name is met after max distinct packages; complete otherwise, and exactly the first max when truncated |
| `Dependencies.TruncationAlarm` | internal/adapters/tools/dependency_tools.go:472-476 | with a maximum of 1 the walk reports truncation on the payload `{"a": {"version": "1"}, "b": null}`, which holds one package |
| `Dependencies.NodeWalk.Walk` | internal/adapters/tools/dependency_tools.go:455-489 | the recursive walk over shared state folds the name-sorted pre-order of the tree, and terminates |
| `Dependencies.NodeWalk.AppendNodeDependencyEntry` | internal/adapters/tools/dependency_tools.go:500-516 | a package is appended exactly when its key is new |
| `Dependencies.CollectNames` | internal/adapters/tools/dependency_tools.go:466-470 | the names of a level, sorted, whatever order the map yields them in |
| `Dependencies.ParseNodeDependencyInventory` | internal/adapters/tools/dependency_tools.go:441-453 | a prefix of the distinct packages in name-sorted pre-order, complete when not truncated, exactly max entries when truncated |

## Left out

- Two relay loops alive at once, and Start/Stop of the relay: the protocol assumes a single relay.
- A retried or delayed LTRIM that takes effect twice: outside the protocol; `Outbox.DoubleTrim` says exactly when it loses an event.
- Invocation ID collisions (`inv-fallback` when randomness fails): IDs are fresh in the model.
- Deny reasons, error messages, timestamps, tracing, telemetry, KPI metrics and quality observations around an invocation.
- The size and artifact quotas of a run result, artifact persistence and output schema validation: each is one yes-or-no answer.
- Lifecycle.EndedBookkeeping: a call whose first save reports an error is not among the ended ones; it leaves that one save and nothing else.
- Limiter.SharedWindow: assumes that lower-casing makes no white space out of other characters, as Unicode's does.
- Dependencies.PackageMet: says nothing of licences.
- InvocationStore.LookupKeyExact: assumes tool names without bars, as all catalog tools have.
- Ranking.BetterNeverLowers: a HyLinUCB or neural draw is computed from the same policy; that better measurements do not lower it is assumed, since the learners' outputs are arbitrary here.
- Ranking.BetterNeverDemotes: rests on the same assumption.
- Listing.UnlistedNeverRuns: sessions and the environment do not change during a run.
- Time-to-live of Valkey keys, JSON encoding of records, and hydration of outputs and logs from artifacts.
- Policy denial texts; the length limit of an argument is counted in characters, not bytes.
- Symbolic links and everything the file system does after a path is resolved.
- Sampling from Beta distributions, the neural network and feature encoding: a draw is any value in [0,1]. HyLinUCBManager only picks the instance of a context.
- Tokenizing recommendation hints, the texts of explanations, decision records, and the label of the decision source.
- Python, Rust, Maven and Gradle inventories: the same collection loop as `Dependencies.ParseGoDependencyInventory` behind other line grammars; licences of npm packages.
- HELP, TYPE, _sum and _count lines and number formatting of the metrics output.
- Aggregation of telemetry, artifact storage, and the handlers that call Docker, Kubernetes, GitHub, databases, brokers and the shell: foreign calls with little logic of their own.
