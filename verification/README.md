# Verified model of the realtime server's dispatch core

A Dafny model of the server's hardest parts: the webhook dispatch engine, the realtime fan-out that
feeds it, and the smaller algorithms around them. `dafny verify dfyconfig.toml` checks all of it.

Code that updates state is modelled by classes and methods with the source's branches and loops. Their
contracts equate the new state with a transition function on values, and the theorems about whole runs are
about step machines built from those functions. The one elector object is tied to the elector machine
through the invariant that both keep: a live leader whose session lives holds the lock. A machine's run is
any sequence of steps; a step that is not enabled changes nothing, so every interleaving of the steps is
covered. The section on what is left out names the lock regions and writes that share a step.

| part | files |
|---|---|
| webhook engine | `subscription`, `engine`, `engine_accept`, `engine_conservation`, `engine_timing`, `engine_budget`, `engine_cap`, `engine_overshoot`, `engine_evict`, `engine_pause`, `engine_disable`, `engine_reports`, `delivery`, `context` |
| cache and store | `storage`, `manager`, `subops`, `cache_sync`, `chanop` |
| realtime fan-out | `channels`, `conn`, `fanout`, `publish`, `members` |
| stored history, wire format, signature | `paging`, `history_writer`, `json`, `codec`, `signature` |
| leader election | `elector`, `lock_client` |

Time is in nanoseconds (stored messages: microseconds). Ids are natural numbers. 64-bit wrap-around is
written out where durations and shifts are computed. Answers of the database, transports, matchers,
parsers, clocks and the keyed hash are parameters.

Where the code does less than its documentation says, the model follows the code:

- `docs/WEBHOOKS.md:133` calls the daily cap hard. A match is checked against successes only, so fires still
  in flight can push a day over the cap: by exactly up to workers + queue depth, for every configuration
  (`DailyOvershootBound`, `OvershootBoundAttained`). The cap would be hard if windows opened only while
  successes and fires in flight together are below it (`CapHoldsBelow`), and an opening that ignores this
  can always be driven over the cap on the same day (`OpeningKeepsCapIff`).
- The context of a fired payload is meant to precede its first match. When the history was empty at the first
  match it is taken at the next one and contains the first match itself (`FiredContext`,
  `ContextCanRepeatMatch`).
- `internal/proto/codec.go:90` says that the search tells whether the type field is the wanted one. Raw JSON
  inside a frame can make it find the needle elsewhere, and the frame then goes out without its verb
  (`StampedTypeIff`, `RawJsonHidesType`). A frame of exactly 65536 bytes is encoded but not decoded
  (`DecodesAsEncodedIff`, `LargestFrameRefused`).
- An update whose budget does not parse is stored, but the old version stays cached (`StaysSyncedIff`,
  `BadBudgetLeavesStale`).
- Updating, removing or auto-disabling a subscription stops its debounce timer but leaves the pending matches
  in the retired object. They are lost exactly when the timer is still armed (`EvictionLosesWindowIff`,
  `AcceptedMatchLost`).
- Feeding the oldest timestamp back as the bound skips messages when a page boundary falls inside a group of
  equal timestamps (`PagingCompleteIff`, `TiedMessageSkipped`).
- The backoff of `internal/webhook/worker.go:173-177` overflows from the 37th retry on
  (`WaitsAsDocumentedIff`), and with a negative `MaxRetries` the fire row reports a negative number of
  attempts (`Deliver`).
- Fire rows are written after the subscription's lock is released. Each answer of a delivery gets its row, but
  the rows follow the order of the answers in every run if and only if no two workers can have tasks at once
  (`AnswersReported`, `RowsFollowAnswersIff`, `RowsOvertake`).
- Store write and cache update of an operation are not under one lock. When operations overlap, the cache or the
  pause set can end up different from the store (`InterleavedSyncedIff`, `InterleavedInStepIff`,
  `CrossingVerbs`).
- After a lost database session two leaders can overlap for max(HealthCheckInterval, P) + P, where P bounds the
  ping time. HealthCheckInterval + P is a bound if and only if P is at most the interval
  (`OverlapsWithinIff`, `IntervalPlusPingIff`).
- `internal/server/history.go:17-21` says that a burst drops the oldest pending writes; the code drops the
  newest (`BurstKeepsFirst`).

## Model

| member | source | states |
|---|---|---|
| Subscription.LiveSubscription.HandleMatch | internal/webhook/manager.go:419-492 | the verdict on the inputs: cooling iff the last fire is less than the cooldown ago; else exhausted iff the cap is reached; else the match joins the open window, opens one, or is drained at once; what each does to every field |
| Subscription.LiveSubscription.CaptureContext | internal/webhook/manager.go:459-471 | context is taken once per window, when there is any |
| Subscription.LiveSubscription.DrainPending | internal/webhook/manager.go:497-512 | all pending matches leave in one batch, nothing is left, an empty window yields no batch |
| Subscription.LiveSubscription.FlushDebounced | internal/webhook/manager.go:514-522 | the timer's callback clears the timer and drains |
| Engine.AlwaysWellFormed | internal/webhook/manager.go:329-391 | in every run snapshots, tasks and cache refer to objects that exist and agree with them |
| Engine.AcceptAsMethod | internal/webhook/manager.go:419-492 | a visit in the engine does to the object what HandleMatch does, and its task carries the same batch |
| Engine.FlushAsMethod | internal/webhook/manager.go:497-522 | a flush in the engine is FlushDebounced, with its batch |
| EngineAccept.NotifySeesChannel | internal/webhook/manager.go:329-357 | a notification is to visit exactly the cached subscriptions on its channel, and sees exactly the bots paused there |
| EngineAccept.HitAcceptedIff | internal/webhook/manager.go:419-447 | in every run an unpaused match is accepted iff every drain of the compiled subscription is at least its cooldown ago and the successes of today are below its cap |
| EngineAccept.AcceptedAfterCooldown | internal/webhook/manager.go:424-430 | so a subscription without a cap takes every match that comes a cooldown or more after its last drain |
| EngineConservation.MatchesConserved | internal/webhook/manager.go:449-522 | in every run, per compiled subscription: accepted matches == drained matches in order, then the pending ones; no drained batch is empty |
| EngineConservation.TaskFateUnique | internal/webhook/worker.go:70-99 | every drained task is in exactly one of held, queued, delivering, ended, reported, dropped, discarded, exactly once |
| EngineTiming.TimerSetIffPending | internal/webhook/manager.go:449-522 | the debounce timer is set exactly while matches are pending |
| EngineTiming.DrainsCooldownApart | internal/webhook/manager.go:424-430 | any two drains of a compiled subscription are at least the cooldown apart |
| EngineTiming.WindowNeverOverdue | internal/webhook/manager.go:473-484 | with timers on time, a window that was not stopped is never older than the debounce delay |
| EngineTiming.DrainedExactlyOnTime | internal/webhook/manager.go:473-522 | with timers on time, every batch leaves exactly the debounce delay after its first match, however many follow |
| EngineTiming.StoppedWindowNeverDrains | internal/webhook/manager.go:258-301 | a window whose timer has been stopped never drains, in any continuation |
| EngineEvict.EvictionLosesWindowIff | internal/webhook/manager.go:252-301 | an update, removal or auto-disable loses the pending matches for good iff the timer is still armed |
| EngineEvict.AlwaysCachedNotStopped | internal/webhook/manager.go:252-301 | a cached version's timer was never stopped |
| EngineEvict.AcceptedMatchLost | internal/webhook/manager.go:282-301 | a run in which a match is accepted and never delivered |
| EngineBudget.QueryCountsToday | internal/storage/sqlite/sqlite.go:702-711 | the count query since midnight answers the successes of the current UTC day |
| EngineBudget.CommittedWithin | internal/webhook/manager.go:432-447 | if at most b fires are in flight whenever a window opens, successes plus in-flight fires never exceed cap + b, nor does any UTC day |
| EngineBudget.CapHoldsBelow | docs/WEBHOOKS.md:133 | if windows open only while successes and fires in flight are below m, no day has more than m successes |
| EngineBudget.DailyOvershootBound | internal/webhook/manager.go:419-522 | in general the overshoot is at most queue depth + workers, plus tasks between drain and enqueue, plus older compiled versions |
| EngineCap.AllCommittedCanSucceed | internal/webhook/worker.go:70-188 | from a running pool, everything in flight can still succeed on the same day |
| EngineCap.NoMoreCanSucceed | internal/webhook/manager.go:432-447 | and without another opening no continuation brings the day more |
| EngineCap.OpeningKeepsCapIff | internal/webhook/manager.go:435-447 | after an opening, every continuation without another keeps the day within m iff successes and fires in flight were below m before it |
| EngineCap.NoDebounceNoWindows | internal/webhook/manager.go:479-492 | without debounce a running pool is all that this needs |
| EngineOvershoot.OvershootBoundAttained | docs/WEBHOOKS.md:133 | for every cap, worker count and queue depth a run has exactly cap + workers + queue depth successes on a day |
| EngineOvershoot.CapCanBeExceeded | docs/WEBHOOKS.md:133 | so the hard cap is exceeded, whatever it is |
| EnginePause.AcceptedUnpaused | internal/webhook/manager.go:343-375 | every accepted match came from a Notify that began while its bot was not paused on that channel |
| EnginePause.PausedIff | internal/webhook/manager.go:196-238 | in every run a bot is paused on a channel iff the last verb about it, or the last reload since, says so |
| EnginePause.PauseKeepsNewMatchesOut | internal/webhook/manager.go:196-238 | from a pause until it is lifted no Notify begun in between adds a match, and drained tasks hold only matches from before |
| EnginePause.PausedMatchOnlyRecorded | internal/webhook/manager.go:362-375 | a paused match changes no subscription and drains nothing; its row leaves the budget count as it is |
| EnginePause.PausedRowsCounted | internal/webhook/manager.go:380-391 | in every run a subscription has one paused row for each match a pause kept from it |
| EngineDisable.FailuresTallied | internal/webhook/worker.go:147-167 | in every run consec4xx is the number of permanent answers since the last success, and auto-disable is called for at exactly the tripping ones |
| EngineReports.AnswersReported | internal/webhook/worker.go:147-188 | in every run each answer is reported by one row, or one still to be written |
| EngineReports.RowTells | internal/webhook/worker.go:190-205 | a row names its subscription, task, time, attempts, and the status of its ending |
| EngineReports.RowsFollowAnswersIff | internal/webhook/worker.go:147-167 | rows are in the order of the answers in every run iff there is at most one worker or no queue slot |
| EngineReports.RowsOvertake | internal/webhook/worker.go:147-167 | otherwise a run ends with a counter of 0 while the rows end in a refusal |
| EngineDisable.DisablesTaken | internal/webhook/worker.go:164-166 | auto-disables carried out and still to come are together exactly the tripping answers |
| EngineDisable.TrippedExactly | internal/webhook/worker.go:154-166 | those are exactly the refusals that leave the count at or above the threshold, each once, in order |
| EngineDisable.DisabledStaysOut | internal/webhook/worker.go:209-228 | after auto-disable the id stays out of the cache, and no Notify begun afterwards visits it, until it is installed again |
| Delivery.Deliver | internal/webhook/worker.go:113-188 | one record per task; attempts and status tell how the sends ended; sends stop at the first non-transient answer; one documented wait between sends |
| Delivery.DeliverFor | internal/webhook/worker.go:147-167 | a success resets the failure counter, a permanent answer adds one and calls for auto-disable iff the threshold is reached, anything else leaves it |
| Delivery.WaitAsDocumented | internal/webhook/worker.go:173-177 | up to attempt 36 the 64-bit computation gives min(250 ms * 2^(i-1), 5 s) |
| Delivery.WaitsAsDocumentedIff | internal/webhook/worker.go:173-177 | all waits are the documented ones iff MaxRetries <= 37 |
| Delivery.WaitsNeverDecrease | internal/webhook/worker.go:173-177 | documented waits are positive, never decrease, and stay within 5 s |
| Delivery.TotalWaitBounded | internal/webhook/worker.go:173-184 | waits of a delivery ascend and sum to at most 5 s * (MaxRetries - 1) |
| Delivery.WorkerPool.Enqueue | internal/webhook/worker.go:70-86 | a task goes to the end of a queue with room; a full queue drops and counts it, a stopped pool discards it; as the engine's pool does |
| Delivery.WorkerPool.Receive | internal/webhook/worker.go:87-99 | a worker gets the oldest task |
| PayloadContext.FiredContext | internal/webhook/manager.go:459-471 | matches in channel order; the context is the last min(ctx, 32, p) of the p messages before the first match iff it had history, or is alone, or none is asked for; else what precedes the second match |
| PayloadContext.PrecedingIs | internal/server/conn.go:570-578 | which slice of the log that is |
| PayloadContext.ContextCanRepeatMatch | internal/webhook/manager.go:459-471 | a run whose payload repeats its first match as context |
| Manager.Manager.AddOrUpdate | internal/webhook/manager.go:252-280 | succeeds iff match and budget parse and there is a secret; then a fresh object holds the row field by field, the old timer is stopped, the index kept; else nothing changes |
| Manager.Manager.Remove | internal/webhook/manager.go:282-301 | idempotent removal from cache and index, timer stopped |
| Manager.Manager.SetBotPaused | internal/webhook/manager.go:200-238 | the nested pause maps stand for a set of pairs and never hold an empty entry |
| Manager.Manager.IsBotPaused | internal/webhook/manager.go:209-218 | membership in that set |
| Manager.Manager.Snapshot | internal/webhook/manager.go:329-357 | Notify visits exactly the cached subscriptions of the channel, each once, and sees exactly its paused bots |
| Manager.Manager.Reload | internal/webhook/manager.go:153-194 | what is cached are enabled rows, field by field; a complete reload leaves none out that compiles, and its pauses are the stored ones |
| Manager.ScanIndex | internal/webhook/manager.go:240-248 | the channel index is a scan of the cache: id in byChannel[c] iff cached with that channel |
| Manager.IndexUnique | internal/webhook/manager.go:240-248 | an index with that property and no empty set is the scan |
| Manager.LinkScan | internal/webhook/manager.go:240-248 | linking a subscription keeps index and scan equal |
| Manager.UnlinkScan | internal/webhook/manager.go:282-301 | unlinking one, and dropping an emptied set, does too |
| Subops.Create | internal/subops/subops.go:56-115 | each refusal iff its check is the first to fail; the row field by field; row and cache change together, or neither when the write fails |
| Subops.Patch | internal/subops/subops.go:161-197 | the step-by-step patch gives the patched row or the first error |
| Subops.Update | internal/subops/subops.go:156-209 | own rows only, each refusal by its check; patched fields replaced and all others kept; cache follows, or keeps the old version if the row does not compile; a failed write changes nothing |
| Subops.Save | internal/subops/subops.go:196-206 | the row to the store first, then to the cache, or out of it when disabled |
| Subops.Delete | internal/subops/subops.go:211-223 | own rows only; row and cache entry go together, or neither when the write fails |
| Subops.AutoDisable | internal/webhook/worker.go:209-228 | row disabled unless the write fails; cache entry gone in any case |
| CacheSync.Perform | internal/subops/subops.go:56-223 | create, update, delete, auto-disable and reload do to store and cache exactly what the runs below are made of |
| CacheSync.StaysSyncedIff | internal/subops/subops.go:156-209 | an operation keeps cache == rebuild, unless it keeps a cached subscription enabled with a budget that does not parse |
| CacheSync.BadBudgetLeavesStale | internal/subops/subops.go:190-205 | such an update: the old version stays cached while a reload would build nothing |
| CacheSync.CacheEqualsRebuild | internal/webhook/manager.go:153-301 | over every run without such an update the cache is what a reload would build |
| CacheSync.CachedAreTheEnabled | internal/webhook/manager.go:153-194 | and then cached ids are exactly the enabled stored ones whose budget parses, each entry with its row's fields |
| CacheSync.InterleavedSyncedIff | internal/subops/subops.go:196-206 | when operations overlap, cache == rebuild iff for every subscription the last store write and the last effective cache update stand for the same entry |
| Chanop.Server.CheckTarget | internal/server/chanop.go:87-129 | allowed iff channel and bot are given, the caller has joined the channel as owner, admin or operator, the id is that of a bot of the tenant and the channel is the tenant's; each denial iff its check is the first to fail |
| Chanop.Server.PauseBot | internal/server/chanop.go:21-51 | carried out iff all checks pass and the write succeeds, each denial iff its check is the first to fail; row, pause set, notice and audit row change together, a denied or failed verb changes nothing |
| Chanop.Server.ResumeBot | internal/server/chanop.go:53-78 | the same checks; row and pause are taken back together |
| Chanop.PauseSetEqualsRows | internal/server/chanop.go:21-78 | after any verbs, one at a time, and reloads the pause set is what the stored rows say, although it forgets tenants |
| Chanop.InterleavedInStepIff | internal/server/chanop.go:33-39 | when verbs overlap, it is iff for every bot and channel the last write to the rows and the last to the set agree |
| Chanop.CrossingVerbs | internal/server/chanop.go:33-66 | a pause and a resume that cross: the row is gone and the bot stays paused |
| Chanop.NoticeNotEmpty | internal/server/chanop.go:156-194 | operator notices are never empty |
| Channels.Channel.AppendHistory | internal/channels/channels.go:153-160 | the 32-slot ring refines an unbounded log |
| Channels.Channel.RecentMessages | internal/channels/channels.go:164-189 | backward walk, wrap-around and in-place reversal answer a function of the log alone |
| Channels.RecentIsLastEntriesIff | internal/channels/channels.go:164-189 | the answer is exactly the last min(n, 32, count) entries iff none of them is blank |
| Channels.Channel.AddMember | internal/channels/channels.go:100-108 | membership by connection, reports whether it is new |
| Channels.Channel.RemoveMember | internal/channels/channels.go:110-121 | reports whether it was there |
| Channels.Registry.GetOrCreate | internal/channels/channels.go:261-284 | the shards stand for one map; no channel's members or log change |
| Channels.Registry.Post | internal/channels/channels.go:153-189 | one more entry in one log; all rings stay apart and in order |
| Channels.Registry.RemoveMemberFromAll | internal/channels/channels.go:309-323 | the connection leaves every channel of every shard |
| Channels.Registry.ShardsDisjoint | internal/channels/channels.go:243-250 | a channel is in one shard only |
| Channels.RemovedEverywhere | internal/channels/channels.go:309-323 | and then no key leads to it |
| Conns.Conn.Enqueue | internal/server/conn.go:120-131 | never blocks; a full queue drops and counts |
| Conns.Conn.HandleToken | internal/server/conn.go:389-423 | bound iff the token is non-empty and known, and then to the tenant, account and name it stands for |
| Conns.Conn.HandlePasswordRequest | internal/server/conn.go:366-387 | a challenge only for a known tenant and user |
| Conns.Conn.HandleAuthResponse | internal/server/conn.go:425-454 | bound iff a challenge is pending and the proof right, to that identity; a challenge is spent by the first response, right or wrong |
| Conns.Conn.HandleJoin | internal/server/conn.go:458-500 | joined map and channel members change together; presence to all members iff new |
| Conns.Conn.HandlePart | internal/server/conn.go:502-528 | both shrink together; presence to those who remain |
| Conns.Conn.HandleMsg | internal/server/conn.go:530-617 | an encodable message goes to exactly the members and into the log, and the webhooks see the history without it; the registry is ready for the next one |
| Conns.Conn.EmitSystemMsg | internal/server/chanop.go:156-184 | an operator notice takes the same way, unseen by the webhooks |
| Conns.Conn.ShutSocket | internal/server/conn.go:149-153 | the socket is shut first; the connection is still a member, but takes no frame |
| Conns.Conn.Close | internal/server/conn.go:162-172 | out of every channel, without presence, once |
| Fanout.FanoutIsolation | internal/server/conn.go:195-248 | in every run a connection is a member of (tenant, channel) iff it is still served, authenticated for that tenant and has joined that channel |
| Fanout.DeliveredToJoinedOnly | internal/server/conn.go:580-582 | a channel frame is taken by exactly the connections joined to its channel in its tenant whose socket is not shut |
| Fanout.PresenceIff | internal/server/conn.go:458-528 | joining sends one presence frame iff the connection was not joined yet, leaving one iff it was |
| Fanout.IdentityFixed | internal/server/conn.go:355-454 | after authentication tenant and account never change; a closed connection stays closed |
| Fanout.BoundAsGranted | internal/server/conn.go:389-454 | in every run an authenticated connection has the tenant, account and name that a successful token or password answer gave that connection |
| Fanout.FrameStaysInTenant | internal/server/conn.go:580-582 | so a channel frame is only taken by connections that were authenticated for its tenant |
| Fanout.OnlyJoinedSpeak | internal/server/conn.go:530-617 | a message changes a log only if its sender is joined there, and adds it under the sender's account and name |
| Fanout.AlwaysSpoken | internal/server/conn.go:584-592 | in every run of messages, notices and events no channel's log holds a blank entry |
| Fanout.HistoryExact | internal/channels/channels.go:164-189 | so the ring always answers exactly the last min(n, 32, count) entries |
| Publish.PublishInbound | internal/server/publish.go:33-102 | an encodable event reaches the members and is logged, and the webhooks see the history before it; the registry is ready for the next one |
| Publish.EntryKept | internal/server/publish.go:114-131 | a formatted event is never empty |
| Members.HandleMembers | internal/server/members.go:31-135 | the reply is a roster, whatever order the maps are walked in |
| Members.SortMembers | internal/server/members.go:140-150 | a stable sort: same rows, non-descending, rows that compare equal keep their order |
| Members.RosterRows | internal/server/members.go:31-135 | a row exactly for accounts with a connection here and for known ones that only have a subscription, marked as such |
| Members.RowShows | internal/server/members.go:56-135 | connection count, bot flag, pause flag and name of a row, from the connections and the account |
| Members.RosterAscends | internal/server/members.go:140-150 | live rows first; within each kind by name, then by account |
| Members.CountsAddUp | internal/server/members.go:56-67 | connection counts sum to the member count |
| Members.RosterUniqueIff | internal/server/members.go:17-30 | the reply is independent of map order iff all connections of an account give its row the same name |
| Members.OrderDetermines | internal/server/members.go:140-150 | the order leaves no choice |
| Paging.ListMessages | internal/storage/sqlite/sqlite.go:951-991 | messages before the bound, each once and oldest first; as many as there are up to the limit (50 by default, 500 at most), and no newer one is left out |
| Paging.DatabaseExists | internal/storage/sqlite/sqlite.go:963-973 | for any rows there is a database that answers as the query asks |
| Paging.ChatHistory | internal/server/history.go:103-136 | refusals in order; else the reply lists that page field by field, unless it is too large to send |
| Paging.PagesInOrder | internal/storage/sqlite/sqlite.go:947-950 | pages put together are oldest first without duplicates |
| Paging.PagingTerminates | internal/storage/sqlite/sqlite.go:947-950 | paging ends after at most one page more than there are messages |
| Paging.SkippedAreTied | internal/storage/sqlite/sqlite.go:967-973 | a message never received shares its timestamp with the oldest of some page |
| Paging.PagingCompleteIff | internal/storage/sqlite/sqlite.go:967-973 | all messages are received iff no page boundary, as rows and limit determine them, splits a group of equal timestamps |
| Paging.PageBound | internal/storage/sqlite/sqlite.go:967-973 | the oldest timestamp of a page does not depend on how the database breaks ties |
| Paging.DistinctTimesComplete | internal/storage/sqlite/sqlite.go:967-973 | distinct timestamps are never split |
| Paging.TiedMessageSkipped | internal/storage/sqlite/sqlite.go:967-973 | two messages of one instant, paged one by one: one never arrives |
| HistoryWriter.Writer.Burst | internal/server/history.go:87-93 | a burst keeps its beginning and counts the rest as dropped |
| HistoryWriter.Writer.Drain | internal/server/history.go:63-73 | on shutdown the oldest pending messages are written first |
| HistoryWriter.OfferedAccountedFor | internal/server/history.go:47-93 | in every run each message is stored, queued or counted as dropped, and the order is kept |
| HistoryWriter.BurstKeepsFirst | internal/server/history.go:17-21 | a burst keeps its first 4096 messages, not the last |
| Json.PrintInjective | internal/proto/codec.go:62-66 | no two values print alike |
| Json.EscapePrefixFree | internal/proto/codec.go:62-66 | a printed string ends where it ends (section 7 of RFC 8259) |
| Json.StringReadsBack | internal/proto/codec.go:62-66 | an escaped string reads back as the string, by the escapes of section 7 of RFC 8259 |
| Json.PrintsPunctuation | internal/proto/codec.go:62-66 | arrays and objects print as their parts with brackets, commas and colons |
| Json.NoControls | internal/proto/codec.go:22-29 | a printed value is one line |
| Codec.BytesContains | internal/proto/codec.go:97-114 | true iff the needle occurs at some position |
| Codec.SearchTokens | internal/proto/codec.go:92-95 | the needle occurs in the text iff some key, colon and string value are a hit |
| Codec.SearchValue | internal/proto/codec.go:92-95 | the needle occurs in a printed value iff a member at some depth looks like the type field |
| Codec.KeyHitIff | internal/proto/codec.go:92-95 | a key without quotes does so only if it is "type" |
| Codec.SearchExact | internal/proto/codec.go:90-95 | for frames without raw JSON: found iff the type field is the verb, whatever the texts |
| Codec.MarshalWithType | internal/proto/codec.go:62-88 | prints an object whose fields are the same for the receiver as the frame's, with the verb as type iff it was set or no nested member looks like it |
| Codec.StampedTypeIff | internal/proto/codec.go:62-88 | the right type is sent iff it was set already or no nested member looks like it |
| Codec.NormalSame | internal/proto/codec.go:80-86 | a value that went through a map is the same for its receiver: equal texts and atoms, the same items, the same last members |
| Codec.StampedKeepsFields | internal/proto/codec.go:80-86 | every other field arrives the same |
| Codec.StampedInOrder | internal/proto/codec.go:80-87 | an object printed anew has each key once, in ascending order |
| Codec.RawJsonHidesType | internal/proto/codec.go:90-95 | a reply whose raw match rule makes it go out without a type |
| Codec.Encode | internal/proto/codec.go:30-60 | refused iff longer than 65536 bytes; otherwise one line with its newline, which without raw JSON decodes, if shorter, to the frame's verb with every field the same |
| Codec.EncodedIsOneLine | internal/proto/codec.go:140-156 | the reader gets back that line, and the next frame follows |
| Codec.DecodesAsEncodedIff | internal/proto/codec.go:140-169 | the frame decodes to its own verb and members iff shorter than MaxFrameSize and rightly typed |
| Codec.CleanFramesDecode | internal/proto/codec.go:140-169 | without raw JSON, iff shorter than MaxFrameSize |
| Codec.LargestFrameRefused | internal/proto/codec.go:126-131 | a frame of exactly MaxFrameSize bytes that is encoded and not decoded |
| Signature.ParseSignatureHeader | internal/webhook/payload.go:120-141 | the last t and v1 fields, trimmed; otherwise no signature |
| Signature.ParseFormat | internal/webhook/payload.go:104-106 | every 64-bit integer survives printing and parsing |
| Signature.HeaderRoundTrip | internal/webhook/payload.go:104-141 | parse(print) is the identity iff the digest is not empty, has no comma and no trailing blank |
| Signature.HexAt | internal/webhook/payload.go:95-101 | two lower-case hexadecimal digits per byte, the high one first |
| Signature.VerifyAcceptsSigned | internal/webhook/payload.go:95-118 | the header is t=<time>,v1=<hex of the hash of time, dot and body>, and it verifies, for every timestamp |
| Signature.VerifiesIff | internal/webhook/payload.go:111-118 | a printed header verifies iff its digest is the hash of its timestamp and the body |
| Signature.VerifiesAnyIff | internal/webhook/payload.go:111-141 | any header is judged by its last t and v1 fields alone: a 64-bit timestamp and the hash for it |
| Signature.LaterDigestWins | internal/webhook/payload.go:120-141 | of two digests in a header the later counts, and the timestamp is not touched by it |
| Signature.TrimmedAway | internal/webhook/payload.go:120-141 | blanks around a field are ignored |
| Signature.SignedTextInjective | internal/webhook/payload.go:95-101 | different timestamps or bodies are never hashed as the same text |
| Elector.LiveHolds | internal/ha/postgres.go:58-97 | a live leader context whose session lives holds the lock |
| Elector.OverlapBounded | internal/ha/postgres.go:100-123 | two live leaders only after a lost session, for at most max(interval, P) + P |
| Elector.OneLeaderUnlessSessionLost | internal/ha/postgres.go:125-149 | releasing and taking over never make two leaders |
| Elector.Handover | internal/ha/postgres.go:58-149 | after a live leader releases, whichever idle process asks next gets the lock at its first try and leads, and the old leader does not |
| Elector.OverlapAttained | internal/ha/postgres.go:100-123 | for every P a run reaches max(interval, P) + P after the loss |
| Elector.OverlapsWithinIff | internal/ha/postgres.go:58-149 | so exactly the bounds from max(interval, P) + P on hold in every run |
| Elector.IntervalPlusPingIff | internal/ha/elector.go:53-57 | interval + P is a bound iff P is at most the interval |
| LockClient.Postgres.Acquire | internal/ha/postgres.go:58-97 | polls until the lock is free or something stops it; then the held session holds the lock; a failed attempt closes its session |
| LockClient.Postgres.Heartbeat | internal/ha/postgres.go:100-123 | the first thing that is not a good ping ends it, a lost session included; unless the leader was done its context is cancelled |
| LockClient.Postgres.EndHeartbeat | internal/ha/postgres.go:100-123 | a failed ping cancels whatever context the elector has by then; the parent's end releases |
| LockClient.Postgres.Release | internal/ha/postgres.go:125-149 | cancels before it unlocks, then closes the session |

## Left out

- DailyOvershootBound: the bound counts tasks between a drain and its enqueue call, which the source does outside the lock, and older compiled versions, so it is larger than queue depth + workers unless both are excluded by h = 0 and k = 1.
- OverlapsWithinIff: assumes tickers on time and one leadership at a time per elector; a heartbeat left over from an earlier leadership appears as an arbitrary Cancel step.
- StaysSyncedIff: operations run one at a time; overlapping ones are InterleavedSyncedIff, where each operation's reads and checks come before its two writes.
- CacheEqualsRebuild: store calls succeed; the methods' contracts also say what a failing write leaves behind.
- Reload: the engine sees it as ClearCache followed by installs and pauses, not as one step.
- ListMessages: the database is a parameter that answers ORDER BY ts DESC LIMIT with ties in any order; no stored timestamp is the zero time; rows do not change between pages.
- SearchExact: escapes inside raw JSON text are not modelled; raw JSON is a value printed in canonical form.
- StampedKeepsFields: numbers that pass through a map as floating point stay as they are; that Same forgets the order of keys and earlier duplicates is intended, as the receiver does.
- DecodesAsEncodedIff: filling the frame struct from the members, and Go's case-insensitive key match, are not modelled; the line's meaning is the one value that prints to it.
- Engine steps: one match with its clock reading, its count query and the paused or exhausted row it may leave is one step; an auto-disable is its removal from the cache; a worker counts as idle once its row is written.
- FiredContext: one channel whose messages are handled one at a time; concurrent messages may see each other's history in any order.
- Deliver: the sends of one delivery; payload contents and headers are left to `signature` and `context`.
- PauseBot: the notice's way into the channel is EmitSystemMsg, a call of its own.
- Access control (who may join), bans and roles: answers are parameters.
- Matchers (regular expressions, globs, mentions): a parameter answering hit or miss.
- Budget fields other than the daily cap, which nothing enforces.
- Transports, TLS, HTTP routing, MQTT, AMQP, inbound adapters, TUI, CLI, migrations, the tenant cache, the local elector, logging.
- Password proofs, token hashing, random ids: answers or fresh values are parameters.
- Memory-model detail: each region under a lock is one step.
