# Verified model of the gateway's stateful cores

The repository is a gateway in front of many LLM providers. This project models the parts of it that keep
state over many calls, or that transform text other parts rely on, and proves what they promise over every
input, every run and every interleaving.

| module | what it models |
|---|---|
| `Gateway` | channels, ability rows, and the boundary (provider, state channel) of a request |
| `Selection`, `Selectors` | the cached selection of a channel by priority, weight, exclusion list and boundary; the plain and the capability selectors |
| `RetryPolicy`, `Relay`, `Responses` | the choice after a failure, the retry loop as a step machine, and the loop of the Responses handler with its waits |
| `Abilities`, `ChannelTables` | the ability table, the in-memory index and the textual check under every administrative operation |
| `Ledger`, `LedgerLaws` | charges, refunds and referral commission, delivered in any order and any number of times |
| `KeyText`, `KeyAdmin`, `Polling` | multi-key channels: stored text, import, toggles and compaction, round-robin |
| `KeyErrors`, `KeyMarks`, `KeyNotes` | concurrent error reports against the keys of a channel, with cache syncs at any time; the same as a machine over two sets of keys; what is noted of each key |
| `UpstreamSync` | detection of upstream model changes, manual and automatic application |
| `RateLimiter` | the sliding-window limiter and its default limits |
| `Metrics`, `MetricsCapture` | latency histogram and percentiles; the hand-off of one metrics sample to one of several logs |
| `RetryHistory` | the bracket scanner that takes retry details out of a log, against a JSON grammar |
| `IdRange` | the capped binary search from time to id |
| `Text`, `Sequences`, `Sums` | the string, list and sum vocabulary the others share |

How the model stands to the code:

- An object whose methods update its fields is a class with those fields (`Ledger.Store`, `ChannelTables.Tables`,
  `KeyAdmin.KeyChannel`, `KeyErrors.Channel`, `Polling.Counters`, `UpstreamSync.Channel`,
  `RateLimiter.InMemoryRateLimiter`, `Metrics.MetricsSums`, `MetricsCapture.MetricsCapture`). Each method is
  proved equal to a function of the old state; the laws over runs are lemmas about those functions. Loops of
  the source are loops here.
- A database transaction is one atomic step; a failed one is no step, or a flag where its failure is visible
  to the cache (`KeyErrors`, `UpstreamSync`). Random draws, clocks, upstream outcomes and webhook arrivals
  are parameters that range over everything.
- Strings are sequences of characters. The scanners of the source work on bytes, but look only for ASCII
  characters, which no other UTF-8 character contains.

Where the code does not do what it is for, the model follows the code and a lemma shows the failing case; another,
named behind it, says exactly when the promise holds:

- A `retry-after-ms` header overrides a longer `Retry-After`, and a number of seconds beyond 63 bits falls
  back to the default backoff (`RetryPolicy.ShortMillisecondsWin`; exactly when: `WaitRespectsRetryAfterIff`).
- A charge below 100 cents credits nothing but leaves the listed amount on the order, so its refund takes
  back more than was paid (`LedgerLaws.SmallChargeLosesOnRefund`; `SuccessKeepsTopupIff`). The laws of gifts and
  records hold all the same (`RunKeepsGifts`).
- The limiter forgets a key sooner than most of its default windows end, and with a maximum of zero it
  admits the first request (`RateLimiter.ClearedTooSoon`, `DefaultLimits`; `ExactIff`).
- The binary search leaves ids unread: on gap-free tables single ones, the first among them
  (`IdRange.FirstRowIsNeverFound`; `ExactIff`), on tables with gaps possibly many (`UpperHalfEmpty`, `GapExample`;
  `ExactOnAnyTableIff`).
- A cache sync publishes rows it read earlier. Published between the cache write and the save of a report, or
  any time after them, such rows make later reports overwrite the first one in the channel's row
  (`KeyErrors.SyncInsideAReportLosesIt`; over runs, with any publications and any saves,
  `KeyMarks.RunLosesKeyIff`; only such rows do, `LossNeedsStaleRow`). While no sync publishes one the reports add
  up, whichever saves fail (`KeyErrors.ReportsAddUp`).
- When the save of the report that disables a channel's last key fails, then while no sync publishes the row it
  is never disabled by a later report (`KeyErrors.FallenCacheIsNeverRepaired`; `StatusesAgreeIff`, and over runs the last part of `ReportsAddUp`).
- Toggling keys can disable the channel in memory without storing that (`KeyAdmin.TogglingBothKeysOff`;
  `ToggleKeepsStoredStatusIff`).
- Deleting the disabled keys of a channel that has no other clears their statuses but keeps their text, so all of
  them are enabled again (`KeyAdmin.DeletingEveryKeyEnablesThem`; `DeletionKeepsEnabledIff`).
- A status or metadata left behind at an index beyond the keys passes to the key that is appended there
  (`KeyAdmin.AppendInheritsMetadata`; `NewSlotsAreFresh`).
- Keys are stored without a check whether their joined text reads back (`KeyText.ObjectsReadBackIff`,
  `LinesReadBackIff`).
- A model name with a comma stays pending for ever (`UpstreamSync.CommaNameStaysPending`; `Synchronise`); a name that reads as a
  `regex:` rule, once ignored, hides others (`IgnoredExpressionExample`; `ApplyMeetsDetectionIff`).
- An error text that holds `adminInfo:[` can make the expression for the channel history swallow the end of the
  retry history, which is then not taken out (`RetryHistory.ErrorTextExample`, `ErrorTextHidesTheEnd`;
  `OnlyTheTagIsLeftIff`).
- A channel whose lists repeat a name is stored with a part of its ability rows, or with none
  (`Abilities.RepeatedName`; `RowsFitIff`).
- A trailing comma makes the textual check accept a blank group (`Abilities.BlankGroupIsAcceptedByTextOnly`;
  `TextAgreesWithJoin`).
- An enabled row left behind by a deleted channel can hide every channel from the plain selector: deleting the
  disabled channels and then enabling one of them by its id leads there (`Selectors.OrphanExample`, `OrphanRises`;
  `PlainSelectorAgreesIff`). The plain selector has no caller in the repository.

Run `dafny verify dfyconfig.toml` to check the whole project.

## Model

| member | source | states |
|---|---|---|
| `Gateway.PinningOnlyNarrows` | middleware/distributor.go:172-186 | after the provider of an admitted first channel is pinned, only channels the old boundary allowed remain, the first among them |
| `Selection.PickByWeight` | model/cache.go:564-596 | for every threshold from 1 to the total weight the loop finds a channel, so the final "unable to select" error is unreachable; the one found is the channel whose weight interval holds the threshold |
| `Selection.PickIsUnique` | model/cache.go:580-592 | no threshold selects two channels |
| `Selection.PickIsProportional` | model/cache.go:564-596 | of the thresholds 1..total exactly max(1, weight) select a given channel |
| `Selection.PrioritiesOfRows` | model/cache.go:396-411 | the sorted list holds the priorities of the enabled joined rows, each once, strictly descending, and no others |
| `Selection.ReachMeans` | model/cache.go:484-520 | a selection that skips levels reaches exactly the rows at or below the level with that index, or the lowest level when it skips them all |
| `Selection.FilterRetryProviderChannels` | model/channel_provider.go:54-65 | the loop keeps exactly the rows inside the boundary, in order, and everything when there is none |
| `Selection.UseAffinity` | model/cache.go:426-482 | the remembered channel is used exactly when it is not excluded, is enabled, lists group and model after trimming, and lies inside the boundary |
| `Selection.ScanLevels` | model/cache.go:484-562 | primary query and fallback together stop at the first level, from the chosen one down, with a row left after exclusion and boundary |
| `Selection.ScanFindsBest` | model/cache.go:484-562 | where the scan stops are the best candidates of the reachable table, by a definition without levels or fallback; nothing, if there is no candidate |
| `Selection.CacheGetRandomSatisfiedChannel` | model/cache.go:413-596 | the result is the remembered channel, or one weighted pick among the best candidates (of the whole table when no level is skipped), or an error when there is none |
| `Selection.SelectionMeetsSpec` | model/cache.go:484-596 | with no skip and no response id: an error exactly when every enabled channel of the boundary is excluded, otherwise a channel of maximum priority among those that are not |
| `Selection.EveryBestCanBePicked` | model/cache.go:564-596 | every channel of maximum priority is chosen by some draw |
| `Selectors.GetRandomSatisfiedChannel` | model/ability.go:34-98 | a weighted pick, by its own copy of the loop, among the enabled rows at MAX(priority) that join a channel |
| `Selectors.PlainSelectorAgreesIff` | model/ability.go:45-60 | on a consistent table the plain selector draws from the same rows as the cached selection without exclusions, if and only if no enabled row of a vanished channel outranks them |
| `Selectors.DeletedThenEnabledIsConsistent` | model/channel.go:841-844 | deleting the disabled channels and then enabling one of them by its id leaves a consistent state, with enabled rows of a channel that is gone |
| `Selectors.OrphanRises` | model/channel.go:698-762 | these two calls, from any consistent state with a disabled channel ranked above the best enabled one, put an orphan on top: the plain selector finds no row, the cached selection still does |
| `Selectors.OrphanExample` | model/ability.go:45-60 | two channels of one group and model, the higher one disabled: such a state |
| `Selectors.CopiesAgree` | model/cache.go:680-711 | the three copies of the weight loop pick the same channel from the same rows and draw |
| `Selectors.SelectWithCapability` | model/cache.go:608-711 | a weighted pick, by its own copy of the loop, among the best capable rows that are not excluded, at or below the first level; an error when there is none |
| `Selectors.AllCapableIsPlain` | model/cache.go:608-711 | with every channel capable and no level skipped it draws from the same rows as the selection without a filter |
| `RetryPolicy.AppendUniqueChannelID` | controller/retry_policy.go:19-29 | a positive id not yet in the list is appended; otherwise the list is unchanged |
| `RetryPolicy.PoolMeans` | model/channel_provider.go:39-52 | a channel is eligible exactly when it is enabled, has an enabled ability for group and model, is of the provider if there is one, and is the state channel if there is one; its priority is that ability's |
| `RetryPolicy.PoolRespectsBoundary` | model/channel_provider.go:46-52 | so a channel eligible for a request is enabled and inside its boundary |
| `RetryPolicy.SelectRetryChannel` | controller/retry_policy.go:34-50 | a best channel outside the failed list; when that is exhausted, nothing under a boundary, else the list is emptied and a best channel of all is chosen; an error only when there is none |
| `RetryPolicy.WaitIsBounded` | controller/retry_policy.go:53-74 | every granted wait lies between 1 ms and 30 s |
| `RetryPolicy.WaitIsWhatHeadersCallFor` | controller/retry_policy.go:53-74 | a readable retry-after-ms of n gives max(1, n) ms, else a readable number or date in Retry-After gives exactly what it demands, at least 1 ms; too long exactly when that exceeds 30 s |
| `RetryPolicy.BackoffDoubles` | controller/retry_policy.go:54 | without a readable header the wait is 2 s on the first attempt, doubles up to the fourth, and stays |
| `RetryPolicy.WaitRespectsRetryAfterIff` | controller/retry_policy.go:53-74 | a granted wait is at least what Retry-After demands (section 10.2.3 of RFC 9110) if and only if no readable retry-after-ms asks for less and the seconds fit 63 bits |
| `RetryPolicy.ShortMillisecondsWin` | controller/retry_policy.go:53-58 | a retry-after-ms of 1 beside a Retry-After of 10 s is granted after 1 ms |
| `Relay.ContinueRound` | controller/retry_policy.go:34-50 | a best channel outside the failed list keeps the round-robin invariant: no repeat within the round, priorities not rising, every finished round complete |
| `Relay.OpenRound` | controller/retry_policy.go:40-49 | a best channel after the reset of an exhausted list opens the next round under the same invariant |
| `Relay.RunGoesRound` | controller/relay.go:168-322 | over every unbounded run with a steady pool: rounds are complete before the next begins, no channel twice in a round, and after the first pick priorities never rise within a round |
| `Relay.TriesOf` | controller/relay.go:168-322 | in such a history a channel was tried once in every finished round and at most once in the last |
| `Relay.RunIsBalanced` | controller/relay.go:168-322 | at every point of every such run the tries of any two eligible channels differ by at most one |
| `Relay.RunStaysInside` | controller/relay.go:168-322 | under a boundary, with tables changing at will, every retry is in the pool of its query, no channel is tried twice, and the failed list is the whole history |
| `Relay.PinnedRunStaysInside` | controller/relay.go:168-322 | after the provider of the first channel is pinned, every retry goes to a channel that is enabled when chosen and is of the provider and the state channel of the request's own boundary and of the pinned one, where they have one; no channel is tried twice, and a request bound to a state channel is not retried |
| `Relay.PinnedChannelIsNotRetried` | controller/relay.go:168-322 | when only the first channel is ever eligible a bounded run has no retry |
| `Relay.ChooseNext` | controller/relay.go:168-215 | one pass up to the attempt is a legal turn of the step machine; it gives up only when nothing is left under a boundary, or nothing is left at all and no last channel is known |
| `Relay.TryNext` | controller/relay.go:168-322 | one pass of the loop extends the run by one attempt, with history, failed list, attempt trail and last channel as the run defines them, or changes nothing |
| `Relay.Relay` | controller/relay.go:82-351 | every execution is a run of the step machine with at most 1 + RetryTimes attempts; a retry follows only retryable failures, none follows a success, and an early stop has exhaustion as its reason |
| `Responses.SelectResponsesRetryChannel` | controller/retry_policy.go:77-104 | after 429 a state-bound retry gets the state channel and a granted wait, or TooLong, or a cancelled client; any other retry is a legal turn of the step machine |
| `Responses.RetryOfStateBound` | controller/relay.go:3134-3241 | a state-bound retry follows a 429, is on the state channel, which is then enabled and inside the provider of the request, and waits what the headers of that 429 call for |
| `Responses.StateBoundRunHeedsHeadersIff` | controller/retry_policy.go:53-74 | over a whole state-bound execution every wait is exactly what the headers of the report before it call for, or 2, 4, 8, then 16 s without readable ones, between 1 ms and 30 s; it is at least what Retry-After demands if and only if no readable retry-after-ms asks for less and the seconds fit 63 bits |
| `Responses.StopReasonIsTheFirst` | controller/retry_policy.go:139-157 | the reason for stopping is the first that holds of: client gone, bytes written, state record failed, channel asked for by name, final error; there is none exactly when another attempt may follow |
| `Responses.NextAttempt` | controller/relay.go:3134-3200 | selection, stored key and client check together: a retry that is sent is state-bound as above, or a legal turn; a retry that is not sent has its reason, and nothing is left exactly when exhaustion is reported |
| `Responses.RelayResponse` | controller/relay.go:3058-3266 | at most 1 + RetryTimes attempts; none follows one that wrote bytes, was cancelled, lost its state record or may not be retried; state-bound runs stay on the state channel, enabled and inside the provider, after waits as the headers call for; other runs are runs of the step machine; the reported stop reason is the true one |
| `Abilities.InsertKeepsConsistent` | model/channel.go:558-566 | a new channel with its collected rows keeps every channel's rows exactly those its lists, status and priority call for |
| `Abilities.RowsFitIff` | model/ability.go:100-140 | the rows of a channel fit the primary key if and only if there are none or neither list repeats a name |
| `Abilities.RepeatedName` | model/ability.go:100-125 | rows collected from a list that repeats a name repeat a key |
| `Abilities.DeleteKeepsConsistent` | model/channel.go:649-662 | so does deleting a channel together with its rows |
| `Abilities.StatusKeepsConsistent` | model/channel.go:698-762 | so does changing rows and channels to one status together |
| `Abilities.SetEnabledMeans` | model/channel.go:698-762 | row by row: the flags of the named channels are set and nothing else changes |
| `Abilities.WithStatusMeans` | model/channel.go:698-762 | the named channels take the status and nothing else changes |
| `Abilities.ResyncMeans` | model/ability.go:171-244 | row by row: the flag of a channel that exists becomes that of its status and nothing else changes |
| `Abilities.ResyncKeepsConsistent` | model/ability.go:171-244 | so does the repair of enabled flags |
| `Abilities.AbilityIffListed` | model/ability.go:100-140 | in a consistent state an enabled ability (g, m, c) exists exactly when c is enabled and g and m are in its trimmed lists |
| `Abilities.TextAgreesWithJoin` | model/cache.go:438-463 | the textual check of the cached path accepts what the SQL join accepts, for every group and model but the blank ones |
| `Abilities.AffinityIsEligibleIff` | model/cache.go:426-482 | the remembered channel is used exactly when it is eligible for the request and not excluded, so affinity never widens what a request may use |
| `Abilities.BlankGroupIsAcceptedByTextOnly` | model/cache.go:438-463 | a trailing comma makes the textual check accept the blank group, which no ability row can carry |
| `ChannelTables.CollectRows` | model/ability.go:100-126 | the nested loop collects exactly one row for each model and group, blank names skipped |
| `ChannelTables.Tables.AddAbilities` | model/ability.go:100-140 | inserting in batches of 150 inserts all the rows, once, in order, if and only if they fit the primary key; otherwise the whole batches before the refused one |
| `ChannelTables.Tables.Insert` | model/channel.go:558-566 | the channel is added with all its rows, exactly when they fit, and the state stays consistent; otherwise with the batches before the refused one |
| `ChannelTables.Tables.Update` | model/channel.go:568-627 | the row is replaced and its abilities are rebuilt, all of them exactly when they fit; the state then stays consistent |
| `ChannelTables.Tables.Delete` | model/channel.go:649-662 | channel and rows are gone and the state stays consistent |
| `ChannelTables.Tables.DeleteDisabledChannel` | model/channel.go:841-844 | exactly the disabled channels are gone; the state stays consistent |
| `ChannelTables.Tables.UpdateChannelStatusById` | model/channel.go:698-762 | rows, channel and rebuilt index take the new status together |
| `ChannelTables.Tables.BatchUpdateChannelStatus` | model/channel.go:847-900 | rows and channels of all ids take the new status together |
| `ChannelTables.Tables.AutoDisableChannelById` | model/channel.go:770-819 | channel and rows are disabled together, only where auto-disable applies, and one caller only is told that the status changed; otherwise neither changes |
| `ChannelTables.Tables.SyncChannelAbilities` | model/ability.go:247-264 | the enabled flags of one channel's rows, and no others, are set from its status; the state stays consistent |
| `ChannelTables.Tables.CheckDataConsistency` | model/ability.go:171-244 | the repair keeps the state consistent |
| `ChannelTables.Tables.InitChannelCache` | model/cache.go:305-377 | the rebuilt index lists for every group and model exactly the enabled channels that serve it, once, by descending priority, whatever order the query returns |
| `ChannelTables.AddRoutes` | model/cache.go:334-361 | one channel is appended to exactly the routes of its trimmed, non-blank groups and models |
| `ChannelTables.SortDownSorts` | model/cache.go:363-371 | the sort leaves each id once and priorities descending |
| `ChannelTables.ThreeViewsAgree` | model/cache.go:305-377 | in every consistent state the SQL join, the rebuilt index and the textual check accept the same channels |
| `Ledger.Store.CompareAndSetStatus` | model/charge_order.go:423-432 | the status moves only from the expected one, for the order of that user; otherwise nothing changes |
| `Ledger.Store.StripeChargeSuccess` | model/charge_order.go:252-339 | the transaction is the success step: order, payer and inviter move together or not at all |
| `Ledger.Store.StripeChargeRefund` | model/charge_order.go:158-251 | the transaction is the refund step, with both clamps and the reversal |
| `Ledger.Store.GrantCommission` | model/aff_commission.go:134-230 | one record per source, credited to the inviter; a second grant of the same source changes nothing |
| `Ledger.Store.ReverseCommission` | model/aff_commission.go:242-307 | a granted record is reversed once, by no more than the inviter has |
| `LedgerLaws.SuccessKeepsTopupIff` | model/charge_order.go:268-298 | an accepted payment keeps topup_quota = base + orders in success, if and only if at least a whole dollar was charged or the listed amount is worth nothing |
| `LedgerLaws.SmallChargeLosesOnRefund` | model/charge_order.go:279-282 | a charge of 50 cents on an order listed at 5 credits nothing, and its refund takes 5 units' worth |
| `LedgerLaws.DeliveriesCountIff` | model/charge_order.go:252-277 | a success changes anything exactly when it finds the user's order unpaid and its bill, a refund exactly when it finds the order paid and the user |
| `LedgerLaws.DollarsAreWhole` | model/charge_order.go:279-282 | cents are cut off to whole dollars toward zero |
| `LedgerLaws.PayerGetsTheAmount` | model/charge_order.go:283-298 | an accepted payment credits the payer, alike in both balances, with the quota nearest to dollars times QuotaPerUnit |
| `LedgerLaws.PaymentCommissions` | model/aff_commission.go:134-230 | an accepted payment creates a record exactly when the payer's inviter is another existing user whose own group has a positive rate and the commission comes to at least one half; its quota is the nearest to dollars * that rate * QuotaPerUnit, and the inviter has it in both balances |
| `LedgerLaws.RunCommissions` | model/aff_commission.go:134-230 | over every run each new record is such a commission of one delivery, as rates and groups stood then |
| `LedgerLaws.RefundTakes` | model/charge_order.go:188-213 | a refund takes the booked quota from each balance, or what there is, and nothing of a negative one |
| `LedgerLaws.ReversalTakes` | model/aff_commission.go:242-307 | a reversal takes the commission likewise, and the record says how much |
| `LedgerLaws.StepKeeps` | model/charge_order.go:158-339 | each success, refund, spend or reversal step keeps, for every user, the topup and gift bases, the records' tie to their orders, and the cover that makes the topup clamp idle |
| `LedgerLaws.RunKeepsBases` | model/charge_order.go:158-339 | over every run of exact payments, refunds, orders, spending and deletions in any order and number, topup_quota = base + AmountToQuota over the orders now in success |
| `LedgerLaws.RunKeepsGifts` | model/aff_commission.go:134-307 | over every run, payments of any size and any spending included: gift_quota = base + granted - reversed, and a record is Reversed exactly when its order is refunded |
| `LedgerLaws.UnspentRunIsExact` | model/charge_order.go:188-213 | in runs without spending the balance too is base + orders in success + commission still held |
| `LedgerLaws.RefundUndoesPayment` | model/charge_order.go:158-251 | a payment followed by its refund gives every user, payer and inviter, back exactly what he had |
| `LedgerLaws.NoStepOverdraws` | model/charge_order.go:188-213 | no success, refund or reversal takes a balance below zero |
| `LedgerLaws.ReplayIsIgnored` | model/charge_order.go:268-277 | delivering the same success or refund again changes nothing |
| `LedgerLaws.FreshBooks` | model/charge_order.go:81-147 | books without orders satisfy the invariants, whatever balances they hold |
| `KeyText.ExtractJSONObjects` | common/utils.go:31-61 | the loop computes the scan specification, the early stop on an unbalanced brace included |
| `KeyText.ExtractedAreObjects` | common/utils.go:31-61 | every extracted text opens with a brace, closes it at its end and not before |
| `KeyText.TextEndsExtraction` | common/utils.go:50-58 | any other text behind objects ends the extraction: the objects before it are kept, what follows is not |
| `KeyText.ObjectsReadBackIff` | model/channel.go:962-993 | the joined keys of a Vertex AI channel are read back as they were, if and only if each is one brace-balanced object |
| `KeyText.LinesReadBackIff` | model/channel.go:962-993 | for any other channel: if and only if the text is a JSON array of exactly these keys, or is no JSON array and each key is trimmed, not blank and on one line |
| `KeyText.ParsedKeysAreObjects` | model/channel.go:962-993 | what is read from a stored Vertex AI channel can be stored again |
| `KeyText.ParseSubmittedKeys` | controller/channel.go:525-540 | the loop keeps the trimmed, non-blank pieces: the objects of the text, or its lines |
| `KeyText.SubmittedKeysReadBackIff` | controller/channel.go:525-540 | submitted keys are read back as they were if and only if the channel is a Vertex AI one, or their text is no JSON array of other keys |
| `KeyAdmin.KeyChannel.Update` | model/channel.go:568-627 | the update skips an empty key text and a zero status, and the channel reads back what is stored |
| `KeyAdmin.KeyChannel.CheckAndUpdateChannelStatus` | model/channel.go:1326-1381 | the channel is auto-disabled when no key is enabled, never enabled here, and told of once |
| `KeyAdmin.CheckTakesDownIff` | model/channel.go:1326-1381 | the check takes a multi-key channel down exactly when it has no enabled key, and does nothing else to the status |
| `KeyAdmin.KeyChannel.BatchImportKeys` | model/channel.go:1110-1164 | append leaves old keys with their status and metadata, override drops them; the new keys follow in order with what the information says of their indices, enabled and fresh when no index was out of range; that is what the channel then has if and only if the stored text reads back |
| `KeyAdmin.NewSlotsAreFresh` | model/channel.go:1145-1162 | appended keys are enabled and fresh if and only if what the information has at their indices is what a fresh key gets |
| `KeyAdmin.AppendInheritsMetadata` | model/channel.go:1145-1162 | after an import of three keys that reads back as two, the key appended next gets the metadata of the third |
| `KeyAdmin.KeyChannel.BatchToggleKeyStatus` | model/channel.go:1192-1214 | exactly the named indices in range change status; only the key information is stored, not the channel status |
| `KeyAdmin.ToggleKeepsStoredStatusIff` | model/channel.go:1192-1214 | the status left in memory by a toggle is the stored one if and only if the channel has one key, was auto-disabled, or keeps an enabled key |
| `KeyAdmin.TogglingBothKeysOff` | model/channel.go:1192-1214 | an enabled channel with two keys, both switched off: auto-disabled in memory, enabled in its row |
| `KeyAdmin.KeyChannel.ToggleKeyStatus` | model/channel.go:1167-1189 | one index, an error when it is out of range |
| `KeyAdmin.KeyChannel.ToggleKeysByBatch` | model/channel.go:1217-1231 | exactly the keys imported in that batch are toggled |
| `KeyAdmin.KeyChannel.DeleteDisabledKeys` | model/channel.go:1283-1323 | exactly the enabled keys stay, in order, each with its own metadata at its new index, if and only if their text reads back; an empty text is not stored |
| `KeyAdmin.DeletingEveryKeyEnablesThem` | model/channel.go:1283-1323 | with no enabled key the call leaves every key in place and enabled |
| `KeyAdmin.DeletionKeepsEnabledIff` | model/channel.go:1283-1323 | after the call the keys are exactly the enabled ones if and only if their text reads back, or it is empty and the stored keys are these already |
| `KeyAdmin.CompactKeys` | model/channel.go:1292-1308 | the compaction loop re-indexes the metadata of the kept keys and drops the rest |
| `KeyAdmin.KeyChannel.UpdateKeys` | controller/channel.go:469-522 | override replaces, append extends, if and only if the joined text reads back; the mode defaults to the stored one |
| `KeyAdmin.InitializeKeyStatus` | controller/channel.go:543-574 | status and metadata are set at the indices of the new keys and nowhere else |
| `Polling.Counters.IncrMod` | common/redis.go:132-148 | the shared counter moves by one and its old value modulo n is returned, from Redis or, without it, from the process |
| `Polling.Counters.GetNextAvailableKey` | model/channel.go:1042-1107 | an error exactly when no key is enabled; otherwise an enabled key: the drawn one of the enabled keys, the first one at or after the counter in polling mode, or the first of all in an unknown mode |
| `Polling.ScanFinds` | model/channel.go:1094-1101 | the cyclic scan finds a key exactly when one is enabled, and an enabled one |
| `Polling.EnabledIndicesAscend` | model/channel.go:1053-1059 | the enabled indices are listed in ascending order |
| `Polling.WindowsAgree` | model/channel.go:1075-1101 | how often a key is chosen in n draws does not depend on where the window starts |
| `Polling.PollingShares` | model/channel.go:1075-1101 | over any n consecutive draws of an n-key channel each enabled key is chosen 1 + the number of disabled keys directly before it cyclically, a disabled key never |
| `KeyErrors.Channel.HandleKeyError` | model/channel.go:1420-1518 | one undisturbed report: copy, mark, cache, notices and row as specified; an error exactly when the save fails |
| `KeyErrors.RunIsSerial` | model/channel.go:1425-1430 | every interleaving of any number of reports, with syncs that read and publish at any time, is explained by replaying the finished reports in lock order with the publications that fell into them, whichever saves fail |
| `KeyErrors.HandledKeepsOutcome` | model/channel.go:1420-1518 | one more report, saved or on a cached channel, adds its key to those accounted for and keeps all that is listed for `ReportsAddUp` |
| `KeyErrors.ReportsAddUp` | model/channel.go:1420-1518 | whenever the lock is free in a run, for any saves, where syncs publish only the current row while cache and row agree and not between the writes of a report, and only reports on a cached channel fail to save: what is read next has the initial auto-disabled keys plus all reported ones; each was told once, the channel at most once; the row holds the same exactly when the last first report of a key was saved, and is down exactly when the report that brought the channel down was |
| `KeyNotes.ReportNotes` | model/channel.go:1443-1463 | one report notes the error at its own key and leaves batch, usage, last use and remark of that key, and everything about other keys, as they were; so in the cache, if there is one, and in the row, if it is saved |
| `KeyNotes.NotesOfRunAddUp` | model/channel.go:1420-1518 | over the same runs: what is read next has the initial metadata outside the reported keys, and at a reported one the initial metadata with the note of the report that told it |
| `KeyErrors.UnsyncedRunIsGentle` | model/channel.go:1420-1518 | a run without publications on a cached channel is one of those, for any pattern of saves |
| `KeyErrors.PunctualReportsAgree` | model/cache.go:305-377 | when every save succeeds and syncs publish only what is current, outside the two writes of a report, cache and row agree whenever the lock is free, and "auto-disabled exactly when no key is enabled" is kept |
| `KeyErrors.StatusesAgreeIff` | model/channel.go:1465-1517 | after a report cache and row have the same status if and only if the report skipped, was saved, or did not bring the channel down |
| `KeyErrors.FallenCacheIsNeverRepaired` | model/channel.go:1435-1447 | once the cached channel is down without its row, no sequence of later reports disables the row or its abilities |
| `KeyErrors.LostIff` | model/cache.go:305-377 | a saved report that takes effect is missing from the row after any saved later ones, if and only if a row from before it, of an enabled channel, was published between its writes, one of the later reports takes effect on it, and none names the key |
| `KeyErrors.LatePublicationIsInside` | model/cache.go:305-377 | publishing such a row right after the save has the same effect as between the writes |
| `KeyErrors.RunLosesIff` | model/channel.go:1420-1518 | the special case of a report in any run whose later reports are saved and undisturbed, told by the published row alone |
| `KeyErrors.SyncInsideAReportLosesIt` | model/cache.go:305-377 | from every enabled channel whose cache agrees, for any two enabled keys, there is a run with one sync in which the row ends with the first reported key enabled |
| `KeyMarks.RunMarks` | model/channel.go:1420-1518 | in any run, with any publications and any saves, row and cache hold exactly the auto-disabled keys that a machine over two sets gives: a report adds its key to what it read and writes the result to the cache, if there is one, and to the row, if saved; a publication sets or drops the cache |
| `KeyMarks.RowIsLastStored` | model/channel.go:1420-1518 | the row holds what the last report that took effect and was saved had read, and its key; without one, the initial keys |
| `KeyMarks.RunLosesKeyIff` | model/cache.go:305-377 | in any run a reported and saved key is missing from the row in the end if and only if the last report to be saved is a later one of another key that had not read it |
| `KeyMarks.LossNeedsStaleRow` | model/cache.go:305-377 | and then a row of an enabled channel without the key was published between the writes of its report or later |
| `UpstreamSync.MergeIsUnion` | controller/channel_upstream_update.go:92-105 | merging gives the union of the trimmed names, without duplicates |
| `UpstreamSync.SubtractIsDifference` | controller/channel_upstream_update.go:107-116 | subtracting gives the difference of the trimmed names, without duplicates |
| `UpstreamSync.IntersectIsIntersection` | controller/channel_upstream_update.go:118-127 | intersecting gives the intersection of the trimmed names, without duplicates |
| `UpstreamSync.DetectFilters` | controller/channel_upstream_update.go:195-274 | pending additions are, in upstream order, the names the channel lacks and no redirect or rule covers; pending removals, in the channel's order, the names upstream lacks and no redirect starts from |
| `UpstreamSync.DetectionMeans` | controller/channel_upstream_update.go:195-274 | in plain terms: to add are the names upstream has and the channel lacks, which no redirect leads to, no literal rule equals and no expression matches; to remove are the names the channel has and upstream lacks, from which no redirect starts; both without repetition, in order |
| `UpstreamSync.UniqOfBoth` | controller/channel_upstream_update.go:85-90 | of repeated names the first occurrences stay, in order |
| `UpstreamSync.ApplySelectedIs` | controller/channel_upstream_update.go:129-133 | applying additions and removals is one filter over the list with the additions behind |
| `UpstreamSync.NextIgnoredIgnores` | controller/channel_upstream_update.go:656-659 | the new rules ignore what the old ones did plus the names just ignored, for every name not just added |
| `UpstreamSync.ApplyMeetsDetectionIff` | controller/channel_upstream_update.go:639-665 | after any partial apply, detection against the same upstream list gives exactly the remaining lists, in the same order, if and only if the new rules ignore what the old ones did and the names just ignored |
| `UpstreamSync.PlainNamesKeepRules` | controller/channel_upstream_update.go:656-659 | they do when no selected name begins with `regex:` |
| `UpstreamSync.IgnoredExpressionExample` | controller/channel_upstream_update.go:656-659 | upstream offers `b` and `regex:b`; ignoring the second hides the first |
| `UpstreamSync.FullApplyLeavesNothingIff` | controller/channel_upstream_update.go:639-665 | after a full apply detection gives two empty lists, if and only if what was ignored still is; so it is when no added name begins with `regex:` |
| `UpstreamSync.Channel.Apply` | controller/channel_upstream_update.go:639-686 | on the stored row: pending lists that agreed with detection are what the call reports as remaining and, when no name with a comma was added, agree afterwards if and only if the new rules ignore what the old ones did and the names just ignored; with such a name they do not, unless an ignored one reads as an expression |
| `UpstreamSync.Channel.Check` | controller/channel_upstream_update.go:337-427 | cooling down, fetch errors, an empty upstream list and failed saves change nothing but the check time; otherwise see `Synchronise`: with no comma name taken, a name that upstream has or a redirect starts from stays, and a name that comes is one upstream has and no redirect leads to |
| `UpstreamSync.Synchronise` | controller/channel_upstream_update.go:349-425 | auto-apply takes exactly the pending names its switches allow; the stored lists equal a fresh detection if and only if no name with a comma was taken; a channel emptied falls, one that had fallen empty comes back, each if the follow-up update goes through |
| `UpstreamSync.CommaNameStaysPending` | controller/channel_upstream_update.go:646-653 | a name with a comma is detected again whatever is written to the models column |
| `UpstreamSync.ColumnRoundTrip` | model/channel.go:1669-1680 | distinct trimmed names without commas survive the models column |
| `RateLimiter.InMemoryRateLimiter.Request` | common/rate-limit.go:45-70 | verdict and queue as specified, for every key, limit and time; a panic and no change exactly for a negative maximum on a fresh key |
| `RateLimiter.InMemoryRateLimiter.ClearExpiredItems` | common/rate-limit.go:28-42 | exactly the keys whose last request is older than the expiry are dropped |
| `RateLimiter.PlayRemembers` | common/rate-limit.go:28-70 | in every run the queue holds the latest admitted times, and what was forgotten is outside the window for good unless the queue is full |
| `RateLimiter.ExactIff` | common/rate-limit.go:28-70 | in every run of requests and clean-ups with a clock that never goes back, each verdict is "fewer than max admitted requests in the last duration seconds of the whole history", if and only if max >= 1 and the duration is at most expiry + 1 |
| `RateLimiter.ClearedTooSoon` | common/rate-limit.go:33-39 | with a longer duration a full burst and a clean-up let the next request in too early |
| `RateLimiter.DefaultLimits` | common/config/config.go:212-231 | of the default limits exactly upload and download are exact under the default expiry |
| `Metrics.BoundsAscend` | model/metrics_v2.go:80 | the fixed bounds are positive and ascending, which is all that is used of them |
| `Metrics.MetricsSums.Add` | model/metrics_v2.go:100-118 | every field and every bucket moves by sign times the other's |
| `Metrics.MetricsSums.Record` | model/metrics_v2.go:119-157 | every field moves as the attempt says; only a positive duration of a success is timed |
| `Metrics.RecordDescribes` | model/metrics_v2.go:119-157 | sums that describe some durations describe them and the new one afterwards, and the counts stay balanced |
| `Metrics.RecordedAllDescribes` | model/metrics_v2_worker.go:108-128 | a recorder that starts from nothing and is given any attempts describes exactly the durations of the timed successes among them, and its counts balance |
| `Metrics.RecordedAllCounts` | model/metrics_v2.go:119-157 | each field counts or totals exactly the attempts it is for: by outcome, final ones, known usage, timed successes, speed of those with tokens, first-token times within the duration |
| `Metrics.PagesAddUp` | model/metrics_v2_worker.go:149-158 | recording page by page and adding the pages equals recording all attempts at once, in every field and bucket |
| `Metrics.AddMerges` | model/metrics_v2.go:100-118 | adding sums describes the durations of both |
| `Metrics.AddThenSubtract` | model/metrics_v2.go:100-118 | adding and then subtracting any sums restores every field |
| `Metrics.HistogramAddsUp` | model/metrics_v2.go:136-143 | the histogram sums to DurationCount |
| `Metrics.MetricPercentile` | model/metrics_v2.go:171-192 | the accumulating loop computes the percentile function; nothing without data |
| `Metrics.KthIsInBucket` | model/metrics_v2.go:171-192 | the k-th smallest duration lies in the bucket at which the accumulated count reaches k |
| `Metrics.PercentileBrackets` | model/metrics_v2.go:171-192 | with the durations of a bucket spread evenly up to its upper bound, the answer is where the k-th smallest duration then stands; in the last bucket it is the lower bound, marked as capped |
| `Metrics.MedianOfFour` | model/metrics_v2.go:187 | four durations between 1 and 2 s: rank 2 reads 1.5 s |
| `Metrics.RecordedPercentile` | model/metrics_v2.go:171-192 | for a recorder given any attempts: with k the least rank at or above n p, the percentile p estimates the k-th smallest timed duration in that way |
| `Metrics.NothingTimedNothingRead` | model/metrics_v2.go:172-174 | without a timed success there is no percentile |
| `Metrics.KthExists` | model/metrics_v2.go:176 | every rank from 1 to the count has its duration |
| `Metrics.PercentilesInOrder` | model/metrics_v2.go:216-222 | answers never fall as p rises, so P50 <= P95 <= P99, and none is missing when there are samples |
| `MetricsCapture.MetricsCapture.RecordAttempt` | model/metrics_v2_capture.go:54-66 | the 65th attempt sets overflow and is dropped |
| `MetricsCapture.MetricsCapture.Enrich` | model/metrics_v2_capture.go:90-127 | the first log that may claim the sample gets it, complete or marked incomplete; every other log is unchanged |
| `MetricsCapture.MetricsCapture.Submit` | model/metrics_v2_capture.go:70-88 | a log waits while fewer than four do and the request is open; otherwise it is enriched for writing now, with overflow set if the request is open |
| `MetricsCapture.MetricsCapture.Finish` | model/metrics_v2_capture.go:129-141 | all waiting logs are enriched in order under the lock and handed out for writing |
| `MetricsCapture.RunKeepsInv` | model/metrics_v2_capture.go:54-141 | in every interleaving each log is waiting, leaving or written as often as it was handed in, one sample is out exactly when one was claimed, and samples are honest: the model and source they name, the channel they belong to, every attempt as made, and in the last one exactly what the log completes |
| `MetricsCapture.RunKeepsFirst` | model/metrics_v2_capture.go:54-88 | the first 64 attempts are kept and the first four logs wait, more of either before the end set overflow, and nothing else does |
| `MetricsCapture.EachLogIsWrittenOnce` | model/metrics_v2_capture.go:70-141 | once finish has run and its writes are done, the logs written are those handed in, with multiplicity, unchanged but for samples, of which there is at most one; a complete sample holds every attempt made before its claim |
| `MetricsCapture.NoLogIsWrittenTwice` | model/metrics_v2_capture.go:70-141 | at any earlier point too no log is written more often than it was handed in, and at most one carries a sample |
| `MetricsCapture.OverflowIsNeverHidden` | model/metrics_v2_capture.go:90-110 | if overflow was set before the claim, no sample is ever complete |
| `MetricsCapture.ClaimIsFinal` | model/metrics_v2_capture.go:90-99 | the claim is never made twice |
| `RetryHistory.PassValue` | controller/log.go:79-104 | inside an array the scanner passes over any JSON value, strings with brackets, quotes and escapes included |
| `RetryHistory.ScanEndsAtArray` | controller/log.go:73-108 | from the first bracket of any JSON array text, whatever follows, the scanner ends at its last bracket |
| `RetryHistory.StripRetryHistorySegment` | controller/log.go:65-117 | the loop with depth, string and escape flags computes the cut |
| `RetryHistory.StripTakesOutTheArray` | controller/log.go:65-117 | behind any prefix without the key, exactly `retryHistory:`, the array and one following semicolon are removed |
| `RetryHistory.StripAdminTakesOutTheList` | controller/log.go:14-16 | the expression removes the channel history and the semicolon after it, and goes on behind them |
| `RetryHistory.StripsInside` | controller/log.go:14-16 | on a text that ends with a bracket and what follows it, the expression strips the text as it would alone and leaves what follows, but for its semicolon if the last match reaches it |
| `RetryHistory.StripAdminInfoFromLogs` | controller/log.go:26-60 | every column is rewritten in place: fast path, JSON path or semicolon path |
| `RetryHistory.JsonIsRewrittenIff` | controller/log.go:26-46 | a column that is a JSON object is written again without the keys exactly when it holds a trace of one of them |
| `RetryHistory.WriteOther` | controller/retry_log.go:44-65 | the loop joins the parts that are present with semicolons |
| `RetryHistory.DecimalStandsFor` | controller/retry_log.go:46-49 | channel ids are written in decimal |
| `RetryHistory.OnlyTheTagIsLeftIff` | controller/log.go:26-60 | for any channel history and attempts: stripping what the writer builds leaves the affinity tag and nothing else if and only if there are no attempts, or their part, once the expression has been through it, still closes with only semicolons behind (tag free of both keys, `;;`, outer semicolons and a leading brace) |
| `RetryHistory.OnlyTheTagIsLeft` | controller/log.go:26-60 | so it is for any JSON attempts in which `adminInfo:[` does not occur |
| `RetryHistory.ErrorTextHidesTheEnd` | relay/util/retry_log.go:12-21 | an attempt as it is recorded, with `adminInfo:[` in its error text and no bracket behind it: the expression swallows the closing bracket of the array, and more than the tag is left, whatever the channel history and the tag |
| `RetryHistory.ErrorTextExample` | controller/retry_log.go:44-65 | a request that tried channel 7 once, with the error text `adminInfo:[` |
| `IdRange.FindMaxIdByTimestamp` | model/id_range.go:14-62 | boundary cases, then the capped search; not found exactly for an empty table or one that starts with id 0 |
| `IdRange.FoundIdIsEarlier` | model/id_range.go:41-61 | with or without gaps, the id found is 0 or belongs to a row before the timestamp |
| `IdRange.CapNeverBinds` | model/id_range.go:41-43 | on gap-free ids of 63 bits the search is over after 63 passes |
| `IdRange.SeekHalves` | model/id_range.go:42-59 | each pass at least halves the window |
| `IdRange.ExactIff` | model/id_range.go:41-61 | on gap-free, chronological tables the result is the largest id before the timestamp if and only if the search tree does not leave that id alone; otherwise it is one row short |
| `IdRange.FirstRowIsNeverFound` | model/id_range.go:41-61 | if only the first row is early the result is 0, which callers read as "no row" |
| `IdRange.ExactOnAnyTableIff` | model/id_range.go:41-61 | on any chronological table, gaps included, the result is the largest id before the timestamp if and only if the search tree over the ids there are reads it; otherwise it is the id read just below the window in which the search for it ends, or 0 |
| `IdRange.GapStopsTheSearch` | model/id_range.go:44-58 | when the upper half of the window holds no id and the next row is late, no number of passes changes anything |
| `IdRange.UpperHalfEmpty` | model/id_range.go:41-61 | so when all ids but the last lie in the lower half of their range and the last row is late, the result is 0 |
| `IdRange.GapExample` | model/id_range.go:41-61 | ids 1, 2, 3 and 10, the first three early: the search reports none |
| `IdRange.ApplyTimestampIdRange` | model/id_range.go:68-90 | on gap-free tables the id filter loses no row of the range but, possibly, the last, and adds none but, possibly, the last one before the start; with gaps the start still loses no row of its side and the end lets none in from beyond it |

## Left out

- KeyErrors.ReportsAddUp: with an uncached channel a failing save is an error and changes nothing but the notices; such reports are excluded. Which keys are stored in runs outside its hypotheses is `KeyMarks.RunMarks`; notices and statuses are not stated there.
- KeyErrors.RunLosesIff: later reports must be saved and undisturbed; `KeyMarks.RunLosesKeyIff` has neither condition.
- Metrics.MetricsSums.Record: durations are reals, so rounding and the tests for infinity and NaN are not modelled; attempts come from JSON, which has neither. The scalar fields are one record-valued field of the class.
- LedgerLaws.RunKeepsBases: payments must be exact as `SuccessKeepsTopupIff` defines. Other sources of quota (redemption codes, administrators, tier upgrades) are not modelled; deleting and re-creating a user under the same id is not either.
- Ledger.Store.StripeChargeSuccess: the quota per unit is constant over a run, while the option can be changed at run time (model/option.go:386-399); orders paid under another value would be refunded at the new one.
- KeyAdmin.KeyChannel.BatchImportKeys: times of an import are not modelled.
- KeyAdmin.KeyChannel.UpdateKeys: the fields of the request that are not about keys, and the save that follows, are not modelled.
- KeyText.LinesReadBackIff: decoding of a JSON key array is a parameter.
- ChannelTables.Tables.Insert: the id is assigned by the database, so it is new and no row has it; the other operations ask for consistent tables, so nothing is said of them after a refused insertion.
- ChannelTables.Tables.Update: every column is written, while the code skips zero values.
- RetryHistory.OnlyTheTagIsLeftIff: tags that hold one of the keys or `;;`, or begin or end with a semicolon, or begin with a brace, are excluded.
- RetryHistory.ErrorTextHidesTheEnd: names, reasons and texts around the key are free of quotes, backslashes and square brackets; the duration is the text of a number.
- Relay.Relay: whether an error is retryable is an oracle; affinity write-back, logging, billing and context values are not modelled.
- Responses.RelayResponse: decryption of stored keys and the state record are booleans; streaming is reduced to "bytes were written".
- RateLimiter.InMemoryRateLimiter.Request: one process; the Redis limiter is not part of this model.
- RateLimiter.ExactIff: a request with a negative maximum on a fresh key panics; the runs count it as an admission.
- RetryHistory.StripAdminInfoFromLogs: the JSON form of the column is a parameter; the success path that appends to the history of earlier failures is not modelled.
- UpstreamSync.Channel.Check: regular expressions are an arbitrary predicate; fetching and the mapping's JSON are not modelled.
- UpstreamSync.Channel.Apply: nothing is said of agreement when a name with a comma is added and an ignored one begins with `regex:`.
- IdRange.FindMaxIdByTimestamp: failing queries are not modelled; ids are natural numbers and the sum of two of them does not wrap.
- GetNextAvailableKeyWithRetry, GetKeyByIndex and ResolveKeyByIndex are variants of the modelled key choice.
- MetricsCapture: contexts without a capture write their log at once; the time arithmetic of attempts is a parameter.
- Channel rows that vanish while a report or a retry is under way; Redis expiry; process restarts; overflow of 64-bit counters.
- NULL weights and priorities: the defaults of the database are assumed.
- The selection's log lines, decoding of a channel's configuration into its provider, lower-casing.
- HTTP handlers, upstream calls, mail, payment SDKs, object storage: their results are parameters.
- Video task pollers and callbacks, which keep no invariant over runs.
- statsForMetrics beyond the order of percentiles, pagination, dashboards, option handlers, price listing, masking: they would add only easy members.
