# A verified model of the feed system's core

This project models the parts of a short-video feed backend whose correctness depends on several steps, stores or
processes agreeing with each other, and proves what they keep. Everything is stated for all inputs, all runs or all
reachable states of the model.

- **Following feed, push side** (`FanoutWorker`, `FanoutProtocol`, `FanoutSafety`, `FanoutLoss`, `FanoutBatch`,
  `Inbox`, `SocialWorker`). Videos are pushed to followers' bounded inboxes in cursor batches; follows, flag expiry,
  resets, rebuilds and fan-out interleave freely. While a follower's flag is up, a followed public video is in the inbox,
  cut off behind a full inbox of entries at least as new, or owed by something in flight, unless it was lost, and only
  four steps can lose it: a rebuild or a reset that fails half way, a dead-lettered fan-out message, and the removal of
  members a reader took for stale. When these cost nothing is stated, and two runs show them cost something: a failed
  rebuild behind its raised flag, and a clean-up after which a full inbox no longer looks full.
- **Following feed, read side** (`FollowingPage`, `FollowingMerge`, `FeedPaging`, `DecimalOrder`). A page is merged
  from lists that were each read only in part. A page that says "no more" shows all there is. A page with more to come
  is the head of the full merge exactly when no truncated list has room for an unread newer video, which is decided by
  the entries read, ties included; `NewerVideoCanBeMissed` is an input on which it is not, although the code answers
  from the inbox.
- **Following feed, both sides** (`FollowingFeed`). What a settled reader is answered from the lists without a next page
  is his whole feed, in every run of the push side; a page with more to come is its head if his inbox is not full and
  no truncated list has room.
- **Keyset pages** (`KeysetWalk`). A client that feeds each page's cursor back sees every playable row once, newest first. This
  rests on positive times: a cursor at or before the epoch sends the client back to the first page.
- **Coin wallet** (`WalletLedger`, `WalletSpend`, `WalletSweep`, `WalletOps`, `WalletRun`, `WalletEffects`,
  `WalletOrders`, `WalletService`, `WalletSummary`, `Money`). Lots with expiry, an append-only ledger, tips with a
  platform cut, sweeps and recharge orders: conservation in every run, optimality of earliest-expiry-first, paid exactly
  when granted, and for each operation who gains and who loses how much.
- **Outbox to bucket pipeline** (`LeaseTable`, `Pollers`, `Pipeline`, `PipelineBooks`, `PipelineSafety`,
  `PipelineScores`, `PipelineReplay`, `PipelineTiming`, `PopularityWorker`, `LateReplay`). Leases run out, pollers
  overlap, messages repeat, processes die between any two steps and a failed call may have taken effect: no event is
  lost and its delta enters its bucket once per lifetime of its event key. Keys outlive buckets by an hour, and this hour is what protects
  the scores: a bucket written within an hour never counts an event twice, whatever is replayed and whatever expires,
  and so it is with all buckets if no event is recorded later than an hour after its minute began. Beyond that an event
  can count again exactly as long as something still holds it for replay, and a run shows one that does, because another
  event of its minute was recorded more than an hour later (`LateReplayCountsTwice`).
- **Share codes** (`ShareCode`, `ShareTyping`, `ModArith`). A bijection modulo 2^35 with an inverse found by Newton steps under
  64-bit wrap-around, base-32 digits and a weighted checksum: round trips both ways, what the checksum
  detects, and that exactly the texts which spell a code, as a hand may write it, decode to its video.
- **Recommendation page** (`SlotPlan`, `Mixer`, `Recommend`, `RecommendPaging`). Tag matches, then a greedy diversity
  pick over three queues: full pages of distinct videos, the exact meaning of hasMore, what each pick maximises, and
  for walks through the pages exactly which end and which of those show every video once: beyond 200 videos and a page
  hasMore stays true for ever, and a walk that ends repeats videos exactly if its full pages hold more than 200.
- **Versioned page cache** (`LatestCache`, `LatestProtocol`). A page served under version n shows every insertion whose
  bump returned at most n, through both cache levels.
- **Recent tags** (`Tags`, `Recency`). Merging interests in two steps equals merging at once exactly when the first
  result is stable under compacting.

`Wrappers`, `Sorting`, `TopN`, `Batches`, `Sums` and `GoText` hold what several of these share. Code that updates state in
place is modelled by classes and methods, each proved against a function or a predicate about which the properties
are then proved; protocols between processes are state machines whose steps are single transactions, broker calls or
Redis commands. Times are integers (milliseconds for feeds, seconds for leases, nanoseconds for the wallet).

Where comment and code differ the model follows the code: sorted sets break ties by the byte order of the decimal
member while the table breaks them by number; the in-memory cursor takes a whole millisecond again when the last id is
0 while the query leaves it out (`CursorsAgree`); and `Merge` normalises a label that was cut at a space a second
time (`MergeInTwoStepsCanDiffer`).

## Model

| member | source | states |
|---|---|---|
| Inbox.AboveIsStrictTotal | backend/internal/feed/fanout_store.go:12-16 | Score, then byte order of the decimal member, orders any two entries strictly: rank in a sorted set is well defined |
| Inbox.InboxStore.constructor | backend/internal/feed/fanout_store.go:50-64 | An empty store; a non-positive capacity becomes 1000 |
| Inbox.InboxStore.MarkActive | backend/internal/feed/fanout_store.go:99-105 | Raises exactly this user's flag; user 0 has none |
| Inbox.InboxStore.ClearActive | backend/internal/feed/fanout_store.go:107-115 | Lowers exactly this user's flag |
| Inbox.InboxStore.FilterActive | backend/internal/feed/fanout_store.go:117-141 | The flagged users among the given ones; ascending if those are |
| Inbox.InboxStore.Push | backend/internal/feed/fanout_store.go:143-168 | Every listed inbox becomes the newest maxSize of itself and the video, however often a user is listed; no other inbox changes |
| Inbox.InboxStore.Fill | backend/internal/feed/fanout_store.go:170-200 | Said on the inbox and the listed entries alone: with one score per video it becomes the newest maxSize of what it held and of the entries with an id other than 0; nothing is deleted first and no other inbox changes |
| Inbox.InboxStore.Rebuild | backend/internal/feed/service.go:489-505 | The flag is up from the first call on even if a later one fails; if all succeed the inbox becomes the newest of what it held and the rows with an id other than 0, and otherwise no inbox changes |
| Inbox.RefilledIsNewest | backend/internal/feed/service.go:494-504 | A refilled inbox within its capacity is the newest maxSize of what it held and of the rows with an id other than 0 |
| Inbox.InboxIsNewestOfAll | backend/internal/feed/fanout_store.go:143-200 | With one score per video, any order, repetition and grouping of writes leaves the maxSize newest of everything written, though each write trims |
| Inbox.SameEntriesSameInbox | backend/internal/feed/fanout_store.go:145-146 | Two write histories mentioning the same entries leave the same inbox, so redelivery after trimming is harmless |
| Inbox.TwoScoresDependOnOrder | backend/internal/feed/fanout_store.go:143-168 | The one-score hypothesis is needed: with two scores for a video the order of writes shows |
| TopN.TopOfUnion | backend/internal/feed/fanout_store.go:155-200 | Trimming before adding more equals trimming once at the end |
| FanoutWorker.QueryIsBatch | backend/internal/social/repo.go:43-59 | The keyset query returns the first `limit` follower ids after the cursor, ascending, and leaves out a follower only behind a full batch |
| FanoutWorker.HandleBatch | backend/internal/worker/fanout_worker.go:114-155 | Rejects a message without video or author; otherwise pushes to the batch (its flagged members for medium authors), touches no other inbox, and announces the next batch exactly when this one is full, with its last id as cursor |
| FanoutWorker.ChainListsSteadyFollowersOnce | backend/internal/worker/fanout_worker.go:114-155 | Whatever follows and unfollows happen between batches, ids are listed in strictly ascending order, and a finished chain has listed everyone who followed throughout |
| FanoutWorker.CursorRises | backend/internal/worker/fanout_worker.go:145-154 | Every full batch raises the cursor by at least the batch size |
| FanoutWorker.ChainEnds | backend/internal/worker/fanout_worker.go:145-154 | A chain over ids up to `top` has at most top / limit + 1 batches, so it ends |
| FanoutSafety.KeptOrCut | backend/internal/feed/fanout_store.go:155-166 | What a trim drops, it drops behind maxSize entries that are at least as new |
| FanoutSafety.StoredStays | backend/internal/feed/fanout_store.go:170-200 | An entry in the inbox, or cut off by a full one, stays so under any further write |
| FanoutSafety.ListHandsOn | backend/internal/worker/fanout_worker.go:123-131 | Listing a batch keeps owing the video to every current follower behind the cursor, in this batch or a later one |
| FanoutSafety.CheckHandsOn | backend/internal/feed/fanout_store.go:118-141 | A flag check drops a user from the batch only if the flag is down |
| FanoutSafety.FinishHandsOn | backend/internal/worker/fanout_worker.go:145-154 | A finished batch hands everyone beyond it to the next batch before it is acknowledged |
| FanoutSafety.CrashHandsOn | backend/internal/worker/fanout_worker.go:139-142 | A batch that dies half way is redelivered from its cursor and owes no less |
| FanoutSafety.QueryCovers | backend/internal/feed/service.go:483-497 | Rows read while the flag is up hold every followed public video, or are full of videos at least as new |
| FanoutSafety.TaskEventCovers | backend/internal/worker/fanout_worker.go:70-155 | Every fan-out step keeps the guarantee for every user and video |
| FanoutSafety.FlagEventCovers | backend/internal/feed/service.go:489-505 | Every flag, reset and rebuild step keeps the guarantee |
| FanoutSafety.TableEventCovers | backend/internal/worker/social_worker.go:53-154 | Publishing, hiding, following and unfollowing keep it: a new follow is owed everything through its reset |
| FanoutSafety.OthersKeepCover | backend/internal/feed/service.go:411-415 | A failed rebuild, a failed reset and a removal cost no other user anything |
| FanoutSafety.RiskIsAllThereIs | backend/internal/mq/consumer.go:82-89 | What such a step, or a dead-lettered fan-out message, does not put at risk stays covered |
| FanoutSafety.RepairCovers | backend/internal/worker/social_worker.go:140-154 | A follow or unfollow, the flag going down, a rebuild that starts or has read its rows: each covers everything its user follows, whatever was lost before |
| FanoutSafety.SafeEventCovers | backend/internal/feed/service.go:483-505 | Every other event covers what was covered |
| FanoutSafety.EventKeepsInv | backend/internal/feed/service.go:483-505 | The whole invariant, with its account of what was lost, is kept by every event of every process |
| FanoutSafety.NoVideoIsLost | backend/internal/feed/service.go:483-488 | In every run, a public video of a followed author is in the inbox, cut off behind maxSize entries at least as new, owed by a fan-out, reset or rebuild in flight, or its follower's flag is down, if and only if it is not among those the run lost and has not covered again |
| FanoutSafety.SafeRunLosesNothing | backend/internal/feed/service.go:483-505 | A run without failed rebuilds, failed resets, dead letters and removals loses nothing |
| FanoutSafety.QuietInboxIsComplete | backend/internal/feed/service.go:483-488 | With nothing in flight, a flagged user's inbox holds every such video that was not lost, or is full of entries at least as new |
| FanoutLoss.ShieldedFailureLosesNothing | backend/internal/worker/social_worker.go:150-153 | A failed rebuild or reset loses nothing while the flag is down, another reset will take it down, or another rebuild has yet to read its rows |
| FanoutLoss.RemovalIsSafeIff | backend/internal/feed/service.go:411-425 | With nothing in flight, removing members nobody wants is safe if and only if it removes nothing or the inbox holds every video its user may see |
| FanoutLoss.FailedRebuildLosesVideo | backend/internal/feed/service.go:489-505 | A run of the protocol in which a rebuild raises the flag and fails: nothing is in flight any more and the flagged user will not see a followed video |
| FanoutLoss.FlagAfterQueryLosesVideo | backend/internal/feed/service.go:485-488 | Reading the rows before a fan-out and raising the flag after it would lose the same video |
| FanoutLoss.CleanUpLosesOlderVideo | backend/internal/feed/service.go:388-429 | A run in which the clean-up after a taken-down video empties a place in a full inbox: it now looks complete, and the older video behind it is not looked for |
| FanoutBatch.BatchIsHandleBatch | backend/internal/worker/fanout_worker.go:114-155 | An uninterrupted batch in the protocol does to every inbox and to the queue of batches what HandleBatch does, by the same functions, and changes nothing else |
| FanoutBatch.RebuildIsRebuild | backend/internal/feed/service.go:489-505 | An uninterrupted rebuild in the protocol raises the flag, leaves the inbox that Rebuild leaves for the same rows, and changes nothing else |
| SocialWorker.Worker.HandleFollowed | backend/internal/worker/social_worker.go:53-97 | Adds the relation unless the event was processed or the row exists, keeps every follower count equal to its number of rows, notifies the author exactly for a new relation, and resets the follower's feed even on a repeat |
| SocialWorker.NoticeMoves | backend/internal/notification/writer.go:95-129 | The notice belongs to the author and is about the follower, visible, unread and new; nobody else's notices change, and nobody is told about himself |
| SocialWorker.Worker.HandleUnfollowed | backend/internal/worker/social_worker.go:99-138 | The same for removal; the count's positivity guard never bites |
| SocialWorker.Worker.ResetFollowingFeed | backend/internal/worker/social_worker.go:140-154 | Drops exactly this follower's cached list and flag |
| FeedPaging.NormalizeLimit | backend/internal/feed/service.go:724-732 | Limits end up between 1 and 50: those already there are kept, larger ones become 50, missing ones 10 |
| FeedPaging.CursorsAgree | backend/internal/feed/service.go:740-756 | The in-memory cursor and the query's cursor select the same videos exactly when there is no cursor time or a last id |
| FollowingPage.ReadCount | backend/internal/feed/service.go:758-769 | Four times the limit for every admissible limit, never less than one |
| FollowingPage.ReadSources | backend/internal/feed/service.go:345-375 | Every id read from the inbox or a pulled outbox, once; truncated exactly when some list was read full |
| FollowingPage.Filter | backend/internal/feed/service.go:387-410 | Keeps exactly the approved, followed, playable videos past the cursor; reports as stale exactly the missing, unfollowed or (inside the cursor) unplayable ones |
| FollowingPage.SortedIsDescending | backend/internal/feed/service.go:417-422 | The candidates come out in strictly descending (created_at, id) order |
| FollowingPage.ListByFollowingFromInbox | backend/internal/feed/service.go:303-443 | Empty page for nobody followed; MySQL when too many authors are pulled; otherwise the first `limit` shown rows of what was read with the right hasMore and cursor, or MySQL exactly when they do not fill a page and something may be unread |
| FollowingMerge.UnreadLive | backend/internal/feed/service.go:351-353 | A live video that was not read sits behind the oldest entry of some list that was read full |
| FollowingMerge.NoMoreMeansNothingLeft | backend/internal/feed/service.go:424-429 | An answer with hasMore false shows everything the inbox and pulled outboxes hold past the cursor |
| FollowingMerge.EnoughWasRead | backend/internal/feed/service.go:345-443 | With no room for a newer unread video, the page is the head of the full merge in every store that would have been read alike |
| FollowingMerge.HiddenVideoExists | backend/internal/feed/service.go:345-375 | With room, there is a store, read exactly alike, for which the page is wrong |
| FollowingMerge.PageIsHeadIffNoRoom | backend/internal/feed/service.go:345-443 | Both together: the page is right whatever lies unread exactly when no truncated list leaves room for a video newer than the limit-th row of what was read |
| FollowingMerge.NthExists | backend/internal/feed/service.go:424-435 | That row exists for every page with more to come |
| FollowingMerge.RoomByTime | backend/internal/feed/service.go:345-375 | There is room exactly when the list's oldest read entry is newer than that row or, at equal times, when the two tie orders leave an unread id between them: below the cursor at the cursor's own time, otherwise always unless the oldest id is a power of ten, and then a smaller power of ten |
| DecimalOrder.BelowAPower | backend/internal/feed/fanout_store.go:152-155 | Among equal scores the sorted set ranks below a power of ten exactly the smaller powers of ten |
| FollowingMerge.EnoughNewerRows | backend/internal/feed/service.go:345-443 | If every truncated list kept `limit` shown rows newer than its oldest read entry, the page is the head of the full merge |
| FollowingMerge.NewerVideoCanBeMissed | backend/internal/feed/service.go:424-435 | Concrete stores: four taken-down videos hide a live one behind the read, and the code answers from the inbox with a page that shows an older video instead |
| FollowingFeed.LastPageEndsTheFeed | backend/internal/feed/service.go:424-429 | In every run, a page without a next one, answered from the lists to a reader with nothing in flight or lost, shows his whole feed past the cursor, inbox and pulled outboxes together |
| FollowingFeed.PageHeadsTheFeed | backend/internal/feed/service.go:345-443 | A page with a next one is the head of that feed if his inbox is not full and no truncated list leaves room |
| KeysetWalk.ListFromMySQL | backend/internal/feed/service.go:507-531 | The page and cursor come from the raw rows; the videos are exactly its rows with a playable id, in table order |
| KeysetWalk.OneRowMore | backend/internal/feed/service.go:508-512 | Asking for one row more than shown tells exactly whether there is more |
| KeysetWalk.CursorOfRow | backend/internal/feed/repo.go:82-92 | The cursor of a row with a positive time lets through exactly the rows after it |
| KeysetWalk.NextPageFollowsOn | backend/internal/feed/repo.go:82-92 | The next page starts right behind this one if and only if the last row's time is positive; otherwise the first page comes again |
| KeysetWalk.WalkVisitsEveryRowOnce | backend/internal/feed/repo.go:75-97 | Walking from the first page shows every matching row exactly once, newest first, for every limit |
| KeysetWalk.WalkShowsPlayableRowsOnce | backend/internal/feed/service.go:507-531 | Over a whole walk every playable matching row is shown exactly once, newest first, and no unplayable one ever |
| KeysetWalk.WalkMovesDown | backend/internal/feed/service.go:512-528 | hasMore is false exactly on the last page, every other page is full, and cursors strictly decrease |
| LatestCache.KeysNeverCollide | backend/internal/feed/cache.go:119-127 | Two pages share a cache key only if version and request are the same |
| LatestCache.Cache.GetVersion | backend/internal/feed/cache.go:50-69 | Starts a missing version at 1 and returns it |
| LatestCache.Cache.BumpVersion | backend/internal/feed/cache.go:71-82 | Returns and stores one more than the version, or than 1 |
| LatestCache.WriteShows | backend/internal/feed/cache.go:84-127 | A stored or expired page shows under its own version and request and under no other |
| LatestCache.Cache.Get | backend/internal/feed/cache.go:84-103 | Whatever else was stored since: the page last stored under exactly this version and request, unless it expired |
| LatestCache.Cache.Set | backend/internal/feed/cache.go:105-117 | Adds this write to the history that the keys of all versions and requests keep reflecting |
| LatestProtocol.StaysComplete | backend/internal/worker/timeline_worker.go:52-63 | No later bump returns a version that was already handed out, so cached pages stay complete |
| LatestProtocol.StepKeepsInv | backend/internal/feed/service.go:99-178 | Kept by every step of readers, caches and workers |
| LatestProtocol.ServedPagesAreComplete | backend/internal/feed/service.go:99-178 | In every run a page served under version n was loaded after every insertion whose bump returned at most n, hence shows all whose bump had returned when the version was read |
| WalletOps.CheckinPrize | backend/internal/wallet/rules.go:97-115 | Every draw, however large or negative, yields a prize from 1 to 20 (with the odds of WalletOrders.CheckinOdds) |
| WalletLedger.GrantKeepsBalance | backend/internal/wallet/service.go:660-676 | A grant keeps every lot equal to its ledger rows and every account to its lots |
| WalletLedger.TakeKeepsBalance | backend/internal/wallet/service.go:701-724 | So does taking coins from a lot |
| WalletSpend.SpendingIsOptimal | backend/internal/wallet/service.go:678-712 | At every instant at once, no other way of taking the amount from the account's lots leaves more unexpired coins |
| WalletSpend.OptimalCost | backend/internal/wallet/repo.go:19-26 | What is lost at an instant is only what the coins expiring by then could not cover |
| WalletSpend.SpendTouchesAPrefix | backend/internal/wallet/service.go:693-709 | Only spendable lots change; they are drawn on in expiry order and all but the last touched are emptied |
| WalletSpend.SpendKeepsBooks | backend/internal/wallet/service.go:678-712 | A spend keeps the books and writes rows summing to minus the amount, under its own reference and on its own account |
| WalletSweep.SweepEffect | backend/internal/wallet/service.go:641-658 | Exactly one expire row per due lot, for its whole remainder, in id order; every other lot is untouched |
| WalletSweep.SweepLeavesNoneDue | backend/internal/wallet/service.go:582-602 | After a sweep no lot in scope has coins past its expiry |
| WalletSweep.BatchLeavesRest | backend/internal/wallet/repo.go:86-94 | A batch leaves exactly the later due lots, and sweeping on gives what one sweep would |
| WalletSweep.SweepKeepsBooks | backend/internal/wallet/service.go:628-658 | A sweep keeps the books and writes only expire rows |
| WalletSummary.Summarize | backend/internal/wallet/repo.go:28-65 | One pass over the usable lots yields the four figures: available, expiring soon, next expiry and how many coins go then |
| WalletSummary.SummaryForetellsBalance | backend/internal/wallet/repo.go:28-65 | The figures are facts about the balance over time: it holds until the next expiry and drops then by exactly those coins |
| WalletRun.SendTipKeepsInv | backend/internal/wallet/service.go:200-275 | A tip keeps the invariant, in which every tip's rows stand on its sender and its author: spend, received share and platform cut balance, failed tips change nothing |
| WalletRun.CreditKeepsInv | backend/internal/wallet/service.go:516-553 | Crediting grants coins and bonus exactly once |
| WalletRun.RechargeKeepsInv | backend/internal/wallet/service.go:352-369 | A new recharge closes the older pending orders; at most one stays pending |
| WalletRun.StepKeepsInv | backend/internal/wallet/service.go:87-658 | Every operation keeps the wallet invariant |
| WalletRun.ConservationInEveryRun | backend/internal/wallet/service.go:200-275 | In every run each lot is non-negative and equals its rows, each account's lots equal its rows, and ledger plus platform equals external grants less expirations |
| WalletRun.TipsAreBookedInEveryRun | backend/internal/wallet/service.go:233-262 | In every run each tip cost its sender the coins, brought its author 70% of them, rounded down, and the platform the rest; every consume row is on the sender of its tip and every grant row on its author |
| WalletRun.PaidIffGrantedInEveryRun | backend/internal/wallet/service.go:352-367 | In every run an order is paid exactly when the ledger holds one recharge grant of its coins (and one bonus row if it has one), and accounts have at most one pending order |
| WalletRun.PaidForever | backend/internal/wallet/service.go:501-570 | Whatever runs afterwards, a paid order never changes |
| WalletRun.LatePaymentCreditedOnce | backend/internal/wallet/service.go:501-553 | A payment on a closed order is credited, and its repetition changes nothing |
| WalletRun.FailCheckoutIsSafeIffUnpaid | backend/internal/wallet/service.go:377-384 | The unconditional close after a failed checkout keeps the invariant exactly while the order is unpaid; in the runs it is a step of its own, taken while the order is unpaid |
| WalletService.Service.GrantInTx | backend/internal/wallet/service.go:660-676 | One lot and one ledger row, nothing for a non-positive amount |
| WalletService.Service.SpendInTx | backend/internal/wallet/service.go:678-712 | The loop over available lots commits the specified spend or reports the error and changes nothing |
| WalletService.Service.ExpireAccountTx | backend/internal/wallet/service.go:628-639 | The account's whole sweep |
| WalletService.Service.SweepExpired | backend/internal/wallet/service.go:582-602 | The batch loop ends, equals one sweep of everything, and leaves no due lot |
| WalletService.Service.Send | backend/internal/wallet/service.go:200-275 | Tip with its checks, expiry and bookings, rolled back on every error; WalletEffects.TipMoves says who pays and who gets what |
| WalletService.Service.InsertOrder | backend/internal/wallet/service.go:352-369 | One transaction closes the pending orders and adds the new one, as WalletOrders.RechargeMoves says order by order |
| WalletService.Service.NewRecharge | backend/internal/wallet/service.go:324-387 | Uninterrupted, the call is that transaction followed, if the checkout fails, by the close of an order that is still unpaid |
| WalletService.Service.Credit | backend/internal/wallet/service.go:516-553 | Marks paid and grants coins and bonus, or reports why not; WalletOrders.CreditAnswers says when, CreditMoves what it brings |
| WalletService.Service.Close | backend/internal/wallet/service.go:555-570 | Closes a pending order and no other, as WalletOrders.CloseMoves says |
| WalletService.Service.SweepExpiredOrders | backend/internal/wallet/service.go:604-620 | Closes the due pending orders of one batch, as WalletOrders.OrderSweepMoves says order by order |
| WalletEffects.SpendMoves | backend/internal/wallet/service.go:678-712 | A spend costs its account exactly the amount and nobody else anything |
| WalletEffects.SpendAnswers | backend/internal/wallet/service.go:678-692 | It succeeds exactly if the account's unexpired coins cover a positive amount |
| WalletEffects.EarlierExpiryFirst | backend/internal/wallet/repo.go:19-26 | Of two lots that can pay, the one that expires earlier is empty before the other is touched |
| WalletEffects.LotLife | backend/internal/wallet/rules.go:69-83 | Register gifts live 30 days, check-in and lottery coins 15, tips 90, recharged coins for ever |
| WalletEffects.SweepMoves | backend/internal/wallet/service.go:628-658 | A sweep leaves the accounts in its scope exactly their unexpired coins and costs nobody a coin he could still spend |
| WalletEffects.TipAnswers | backend/internal/wallet/service.go:200-262 | A tip goes through exactly if it reaches ten coins, is for somebody else's listed video, is not within ten seconds of the sender's last tip on it, and is covered by what he can spend |
| WalletEffects.TipMoves | backend/internal/wallet/service.go:233-262 | The sender is left his unexpired coins less the tip, the video's author has 70% of it more, rounded down, the platform the rest, nobody else anything; a refused tip changes nothing |
| WalletOrders.GiftMoves | backend/internal/wallet/service.go:87-96 | A new account gets ten coins, once |
| WalletOrders.CheckinOdds | backend/internal/wallet/rules.go:108-115 | 95 draws of a thousand for each prize up to ten coins, 5 for each from 11 to 20 |
| WalletOrders.LotteryOdds | backend/internal/wallet/rules.go:117-134 | 50, 25, 12, 8, 4 and 1 of a hundred draws for 0, 2, 5, 10, 20 and 50 coins |
| WalletOrders.CheckinMoves | backend/internal/wallet/service.go:117-131 | The prize is paid once a day, to the account that drew it, and to nobody else |
| WalletOrders.LotteryMoves | backend/internal/wallet/service.go:161-181 | So is the lottery's |
| WalletOrders.CreditAnswers | backend/internal/wallet/service.go:516-540 | A credit is accepted exactly if the text is an amount, the order exists, and it is paid already or the amount is the order's |
| WalletOrders.CreditMoves | backend/internal/wallet/service.go:541-553 | Crediting an unpaid order marks it paid and brings its account ten coins per yuan and 30, 100 or 250 more for 30, 68 or 128 yuan, and nobody else anything |
| WalletOrders.WebhookMoves | backend/internal/wallet/service.go:501-514 | A notification over exactly the order's amount in cents does this for an unpaid order; a wrong amount, an unknown order or a repetition changes nothing |
| WalletOrders.RechargeMoves | backend/internal/wallet/service.go:352-369 | Exactly the account's pending orders are closed, and one that is pending for half an hour is added |
| WalletOrders.OrderSweepMoves | backend/internal/wallet/service.go:604-620 | Exactly the first hundred overdue pending orders are closed |
| WalletOrders.QueryMoves | backend/internal/wallet/service.go:389-499 | Asking credits an owner's pending order if the gateway has its exact amount, closes it if it is unpaid and overdue, and otherwise changes nothing |
| Money.ParseYuanAmount | backend/internal/wallet/rules.go:165-213 | The loops compute the specified amount |
| Money.AcceptedTexts | backend/internal/wallet/rules.go:165-227 | Accepted are exactly the texts that are, between white space, an optional minus, digits, and optionally a dot with at most two zeros; the amount is what sign and digits denote |
| Money.ParseDigits | backend/internal/wallet/rules.go:215-227 | The value of a non-empty digit string, nothing else |
| Money.ParseFormatted | backend/internal/wallet/rules.go:229-231 | Every formatted amount parses back to itself |
| LeaseTable.LeaseRepo.Enqueue | backend/internal/outbox/repo.go:23-35 | One new pending row under a fresh id, due from the moment it was written (NewRowIsDue) |
| LeaseTable.LeaseRepo.ClaimBatch | backend/internal/outbox/repo.go:37-94 | Claims the first due rows in id order, leases exactly those and leaves the others alone |
| LeaseTable.LeaseRepo.MarkPending | backend/internal/outbox/repo.go:100-119 | Puts the row back for its retry time; a row that is gone stays gone |
| LeaseTable.LeaseRepo.Delete | backend/internal/popularity/projection_repo.go:86-88 | Removes exactly that row |
| LeaseTable.LeaseRepo.RunOnce | backend/internal/outbox/poller.go:72-99 | One round: delivered rows are gone, failed ones wait for their delay, rows whose final update failed stay leased, the rest of the table is untouched |
| LeaseTable.LeaseIsExclusive | backend/internal/outbox/repo.go:67-78 | Of two pollers with the same candidates, the second gets a row the first took exactly when the lease has run out |
| LeaseTable.NextRetryDelay | backend/internal/outbox/poller.go:101-115 | The doubling loop computes 2^attempt seconds capped at a minute |
| LeaseTable.DelaysGrow | backend/internal/popularity/projection_poller.go:84-97 | Delays lie between two seconds and a minute and never shrink with more attempts |
| LeaseTable.DelayDoubles | backend/internal/outbox/poller.go:101-115 | The first failure waits two seconds, each further one twice as long, up to a minute |
| LeaseTable.FailedRowReturns | backend/internal/outbox/poller.go:82-96 | A failed row is due again exactly once its delay has passed, a row that could not be updated exactly once its lease has run out, a delivered one never |
| Pollers.RowsGoWhenSent | backend/internal/outbox/poller.go:79-96 | Under any overlap of pollers, a row disappears only after it reached the other side |
| Pollers.DeskStaysOk | backend/internal/outbox/poller.go:72-99 | Every poller step keeps that bookkeeping, with stale candidates and lost leases allowed |
| Pollers.NoSendStays | backend/internal/popularity/projection_poller.go:58-82 | A row that is gone and in nobody's unsent batch is never sent again |
| PipelineBooks.RecordIsScored | backend/internal/popularity/service.go:88-113 | The set-once script keeps every bucket equal to the recorded deltas |
| PipelineBooks.RecordIsDated | backend/internal/popularity/service.go:98-112 | The script keeps a bucket that was written within an hour of its first write free of repeats: the key of everything in it lives at least that hour longer |
| PipelineBooks.TickIsDated | backend/internal/popularity/service.go:288-293 | So does the passage of time: when such a key runs out, the bucket is gone already |
| PipelineBooks.StepKeepsBooks | backend/internal/popularity/service.go:88-113 | Every step keeps hit counts, deadlines and scores in agreement |
| PipelineSafety.OutboxKeeps | backend/internal/outbox/poller.go:72-99 | Publishing, also when it fails ambiguously, loses no event |
| PipelineSafety.WorkerKeeps | backend/internal/worker/popularity_worker.go:53-94 | Neither does the worker at any point of a delivery: dedup and projection commit together, the row goes only after the record |
| PipelineSafety.ProjectionKeeps | backend/internal/popularity/projection_poller.go:58-82 | Neither does the second poller |
| PipelineSafety.StepKeepsInv | backend/internal/worker/popularity_worker.go:53-94 | The pipeline invariant is kept by every step |
| PipelineSafety.NoEventIsLost | backend/internal/outbox/poller.go:72-99 | In every run every event is in the outbox, the queue, the dead letters, the projection table or applied |
| PipelineSafety.OncePerKeyLifetime | backend/internal/popularity/service.go:87-113 | In every run a delta entered its bucket once per expiry of its key, and once more if the key lives |
| PipelineScores.ScoresCountHits | backend/internal/popularity/service.go:98-106 | In every run, whatever else expired, a bucket that never expired is the sum of its deltas, each as often as its script won |
| PipelineScores.BriefBucketsCountOnce | backend/internal/popularity/service.go:288-293 | In every run and at any moment, a bucket written for at most an hour holds no event twice |
| PipelineScores.DrainedScore | backend/internal/popularity/service.go:88-113 | Once everything has drained without dead letters, a bucket that never expired exceeds the sum of its events by exactly the repeated counts |
| PipelineScores.DrainedBucketIsSumIffOnceEach | backend/internal/popularity/service.go:88-113 | If its events do not pull in two directions, it is that sum if and only if none counted twice |
| PipelineScores.DrainedBucketsAreSums | backend/internal/popularity/service.go:88-113 | In every run, drained, a bucket that never expired and was written within an hour is the sum of its distinct events |
| PipelineReplay.CountsAgainIffReplayable | backend/internal/popularity/projection_poller.go:58-82 | In every reachable state, an event that has counted can count again, now or later, if and only if a projection row, an unsent batch or a consumer between commit and record holds it |
| PipelineReplay.CarefulRunsCountOnce | backend/internal/popularity/service.go:98-102 | If no key runs out while its event is so held, no event ever counts twice |
| PipelineReplay.CarefulRunsDrainToSums | backend/internal/popularity/service.go:88-113 | In such runs every drained bucket that never expired is the sum of its events, for however long it was written |
| PipelineTiming.PromptRunsCountOnce | backend/internal/mq/message.go:53-67 | In runs in which events carry the minute they were written in and no script writes later than an hour after that minute began, no event is ever in its bucket twice |
| PipelineTiming.PromptRunsDrainToSums | backend/internal/popularity/service.go:88-113 | In such runs every drained bucket that never expired is the sum of its events |
| LateReplay.LateReplayCountsTwice | backend/internal/popularity/service.go:98-106 | A run with such stamps in which another event of the minute, recorded more than an hour later, keeps the bucket alive beyond the key of an event whose row is still to be replayed: everything drains and the event counts twice |
| PopularityWorker.Service.RecordEvent | backend/internal/popularity/service.go:88-113 | The code's script does to keys and buckets what the pipeline's step does |
| PopularityWorker.Worker.MarkProcessed | backend/internal/mq/processed_message.go:26-42 | True exactly for the first delivery of an event |
| PopularityWorker.Worker.Handle | backend/internal/worker/popularity_worker.go:35-97 | Errors exactly on unreadable messages and aborted transactions; adjusts the video's counter at most once per event, as CounterMoves says; leaves the projection row of a first delivery unless Redis answered and the delete worked; a call to Redis that fails may have run |
| PopularityWorker.CounterMoves | backend/internal/video/repo.go:150-156 | Above zero the video's counter moves by exactly the event's delta; it stops at zero, and no other counter moves |
| PopularityWorker.CounterIsSum | backend/internal/video/repo.go:150-156 | A counter that never has to stop at zero is its first value plus the sum of its video's deltas |
| PopularityWorker.DeliveryIsHandle | backend/internal/mq/consumer.go:73-99 | For every fate, a delivery's steps in the pipeline do to tables and Redis what Handle does, by the same functions, and take the message off the queue, to the dead letters exactly when Handle errs |
| ShareCode.NewtonDoubles | backend/internal/video/sharecode.go:52-60 | Each Newton step doubles the number of correct low bits, under 64-bit wrap-around, for every odd multiplier |
| ShareCode.NewtonInverts | backend/internal/video/sharecode.go:52-60 | The loop's result inverts the multiplier modulo 2^35 |
| ShareCode.ComputeMixInverse | backend/internal/video/sharecode.go:52-60 | The loop computes that inverse |
| ShareCode.EncodeShareCode | backend/internal/video/sharecode.go:72-92 | The in-place loops produce the specified code or its error |
| ShareCode.DecodeShareCode | backend/internal/video/sharecode.go:99-127 | The loops accept and decode exactly as specified, which ShareTyping.DecodesIffSpelled says character by character |
| ShareCode.NormalizeShareCode | backend/internal/video/sharecode.go:182-201 | Rune by rune, the specified normal form; ShareTyping.SpelledIsNormal says which texts have which |
| ShareCode.ShareChecksum | backend/internal/video/sharecode.go:172-178 | The accumulating loop computes the weighted sum modulo 32 |
| ShareCode.DecodeEncode | backend/internal/video/sharecode.go:72-127 | Every id in range survives encoding and decoding |
| ShareCode.EncodeDecode | backend/internal/video/sharecode.go:99-127 | Every accepted text re-encodes to its normal form |
| ShareCode.SingleSymbolErrorIsRejected | backend/internal/video/sharecode.go:162-178 | Changing one symbol of an accepted code to anything else is always rejected |
| ShareCode.AdjacentSwap | backend/internal/video/sharecode.go:162-178 | Swapping neighbouring payload symbols is missed exactly when their values differ by a multiple of 16 |
| ShareCode.SameIdSameCode | backend/internal/video/sharecode.go:99-127 | Two texts that decode to one id have the same normal form |
| ShareTyping.SpelledIsNormal | backend/internal/video/sharecode.go:182-201 | A text has a code as its normal form exactly if it spells it: every letter in either case, 1 also as i, I, l or L, 0 also as o or O, dashes and spaces anywhere |
| ShareTyping.DecodesIffSpelled | backend/internal/video/sharecode.go:99-127 | For every id in range, exactly the texts that spell its code decode to it |
| ShareTyping.OthersAreRefused | backend/internal/video/sharecode.go:99-127 | A text that spells no id's code is refused |
| ShareTyping.CodeOfNine | backend/internal/video/sharecode.go:72-92 | The code of id 9 is P7Z6HSS1 |
| SlotPlan.Plan | backend/internal/recommend/mixer.go:26-74 | Every slot gets a queue: the third of every five is for a small creator and the fifth for the hot queue, each as long as its share lasts, a larger share of small creators takes the first other slots, and both get exactly their share |
| SlotPlan.SmallShare | backend/internal/recommend/mixer.go:30-36 | Small creators get the ratio of the page to the nearest slot, at least one of a page of five, never more than the page |
| SlotPlan.HotShare | backend/internal/recommend/mixer.go:37-46 | The hot queue gets one slot of a page of five and two of one of ten, unless that left none for the reader's interests |
| Mixer.AuthorInWindow | backend/internal/recommend/mixer.go:265-279 | True exactly when the author is among the last `window` picks (NearIsInTheLast) |
| Mixer.TooSimilar | backend/internal/recommend/mixer.go:281-294 | True exactly when some pick with a vector is closer than the threshold (DuplicateIffClosestIs) |
| Mixer.ScoreOf | backend/internal/recommend/mixer.go:243-256 | Relevance weighed against the similarity to the closest pick, which counts as 0 when negative: ScoreIs has the value, CloserScoresLess its sign |
| Mixer.CloserScoresLess | backend/internal/recommend/mixer.go:243-256 | Of two candidates with vectors, the one that is no more relevant and closer to some pick than the other is to any scores less |
| Mixer.BestMMRIndex | backend/internal/recommend/mixer.go:230-263 | An unused (and, when strict, passing) item of greatest score, or none exactly when there is none |
| Mixer.PickMMR | backend/internal/recommend/mixer.go:209-228 | The best item that passes both tests, or the best unused one only when no unused item passes; none exactly when all are used |
| Mixer.FillSlot | backend/internal/recommend/mixer.go:180-199 | A slot takes the pick of its queue, of the other queue only when its own is used up, and stays empty only when both are |
| Mixer.MixExcluding | backend/internal/recommend/mixer.go:168-207 | The page fills the plan's slots in order with such picks over the whole pools, never repeating an id or using an excluded one; the plan is the pattern of SlotPlan.Plan |
| Mixer.MixIsComplete | backend/internal/recommend/mixer.go:168-207 | If the interest pool holds every candidate, the page is full unless everything is used |
| Mixer.RepeatOnlyIfForced | backend/internal/recommend/mixer.go:209-228 | Within the window an author shows up twice only where nothing unused in the slot's pool passed the tests |
| Recommend.AssignRankRel | backend/internal/recommend/mixer.go:131-139 | Relevance falls evenly from 1 with rank and nothing else changes |
| Recommend.AssignHotRel | backend/internal/recommend/mixer.go:141-162 | Relevance is proportional between the coldest and the hottest, 1 when all are equal |
| Recommend.SplitQueues | backend/internal/recommend/mixer.go:76-129 | By closeness to the interest vector, or everyone by time without one; small creators by time; everyone by heat, each with its relevance (LikedAre, SmallQueueIs) |
| Recommend.QueuesInOrder | backend/internal/recommend/mixer.go:94-128 | In each queue a candidate is at least as new, as hot or as relevant as those behind it, and of equals the larger id comes first |
| Recommend.QueuesOverOneSet | backend/internal/recommend/mixer.go:76-129 | The interest queue holds every candidate, with an interest vector those that have a vector; the other two nothing but candidates |
| Recommend.LikedAre | backend/internal/recommend/mixer.go:78-88 | With an interest vector, relevance is the candidate's closeness to it, or 0 if it points away |
| Recommend.SmallSlotsShowSmallCreators | backend/internal/recommend/mixer.go:180-199 | A slot for small creators shows one as long as any of them is unused |
| Recommend.MatchInterestTags | backend/internal/recommend/tags.go:10-58 | The weight map and sort compute the ranking that TaggedAre describes |
| Recommend.TaggedAre | backend/internal/recommend/tags.go:10-58 | Said on the tags alone: exactly the candidates that share a tag with the reader, none of them reaching a newer tag than one before it, and newest video first among those that reach equally far |
| Recommend.NewerTagGoesFirst | backend/internal/recommend/tags.go:20-39 | If one match carries a tag of the reader's and another neither that one nor a newer one, the first stands before the other |
| Recommend.LeftoverAny | backend/internal/recommend/tags.go:64-71 | True exactly when some candidate is unused |
| Recommend.PickByTagsOrDefault | backend/internal/recommend/service.go:121-147 | For every tag list and setting: min(limit, n) distinct candidates; the page starts with the tag matches in the order of TaggedAre, as many as fit, and the mixer's picks stand behind them; hasMore exactly when n exceeds the limit |
| RecommendPaging.RemembersNewest | backend/internal/recommend/service.go:101-110 | What comes back is the newest 200 of everything shown |
| RecommendPaging.LargeTablesNeverEnd | backend/internal/recommend/service.go:101-118 | With more candidates than 200 and a page, no walk ever ends |
| RecommendPaging.WalkEnds | backend/internal/recommend/service.go:93-118 | A walk is at its end exactly if there are no more candidates than that and it has as many pages as they fill |
| RecommendPaging.FinishedWalkIsExactIff | backend/internal/recommend/service.go:101-118 | A walk that ends showed every candidate exactly once if and only if the full pages before its last one hold at most 200 |
| RecommendPaging.ClosedForms | backend/internal/recommend/service.go:72-78 | In numbers: that is (size - 1) / limit pages of limit candidates |
| RecommendPaging.DividingLimitsWalkOnce | backend/internal/recommend/service.go:108-110 | With a page size that divides 200 every walk that ends is exact |
| RecommendPaging.RepeatingWalk | backend/internal/recommend/service.go:108-110 | 207 candidates in pages of seven: the walk ends and its last page repeats three videos |
| RecommendPaging.SmallTablesAreWalkedOnce | backend/internal/recommend/service.go:80-118 | Up to 200 candidates that is always so |
| Tags.Normalize | backend/internal/tag/tag.go:80-98 | The loop keeps the first occurrence of each compacted label, at most seven (NormalizedOrder) |
| Tags.Merge | backend/internal/tag/tag.go:100-120 | The loop keeps the last occurrence of each label of the normalised old list and the new ones, then the last seven (MergedOrder) |
| Tags.NormalizedOrder | backend/internal/tag/tag.go:80-98 | The labels in the order in which they are first met, all of them or the first seven |
| Tags.MergedOrder | backend/internal/tag/tag.go:100-120 | The labels in the order in which they are last met, all of them or the last seven |
| Tags.CompactedText | backend/internal/tag/tag.go:45-54 | A label is the text without the white space around it, at most its first 32 runes |
| Tags.MergedFacts | backend/internal/tag/tag.go:100-120 | At most seven labels, none repeated, none empty |
| Tags.MergeInTwoSteps | backend/internal/tag/tag.go:100-120 | If the first result is unchanged by compacting, merging in two steps equals merging at once |
| Tags.UncutListsRegroup | backend/internal/tag/tag.go:45-120 | So it is for lists no label of which is cut at a space |
| Tags.MergeRegroupsIffStable | backend/internal/tag/tag.go:45-120 | For every continuation this holds exactly when the first result is unchanged by compacting |
| Tags.MergeInTwoStepsCanDiffer | backend/internal/tag/tag.go:45-54 | A label cut at a space on which it fails |

## Left out

- MySQL, Redis and RabbitMQ themselves: a transaction, a script and a pipelined write to one key are one step; errors of single reads fall back to MySQL in the code and are not modelled, nor are TTL jitter and the loss of the version key.
- Publisher confirms: a publish that reports success is taken to have reached the queue.
- Score drift: fan-out messages carry the time of enqueueing; the model gives every video one fixed score.
- What exactly a reader takes for stale, from a cached following list and the rows it read: the protocol lets it remove any ids.
- Tier changes across the thresholds, outbox capacity and the follower list cache: every author keeps one tier, and the page theorems are relative to what the lists hold.
- The global timeline as a refinement of MySQL and its hasMore, the hot feed, likes feed and snapshots.
- Inbox.InboxStore.Rebuild: covers the writes of a rebuild; its interleaving with fan-out is the protocol's subject.
- FanoutSafety.NoVideoIsLost: "at least as new" instead of strictly newer, because sorted set and table break ties of one millisecond differently.
- FollowingFeed.LastPageEndsTheFeed: takes the pulled outboxes to hold their authors' videos.
- PipelineScores.DrainedBucketsAreSums: says nothing of a bucket that expired once, whose score starts again from zero, nor of one written for longer than an hour, for which LateReplayCountsTwice is the counterexample and CarefulRunsDrainToSums and PromptRunsDrainToSums conditions; Redis is taken to expire keys exactly at their deadlines and to lose nothing else, and the lifetimes are the defaults the program runs with.
- WalletService.Service.NewRecharge: nothing happens between the transaction and the close; in the runs the two are separate operations, and a session that was never handed out is taken not to be paid.
- The value of videos.popularity over runs in which it stops at zero: it depends on the order of events; `CounterIsSum` is about the others.
- Mixer floating point: reals and an arbitrary similarity function; the third scan of pickMMR, which could only matter for scores that are not numbers; the service calls splitQueues without an interest vector, and its copy of the cosine into each candidate is not kept.
- Unicode case folding of tag keys: any key function.
- Popularity events with a blank event id, which the code records without the set-once key; envelopes always carry one.
- The candidate cap of 2000: the paging theorem is about candidate sets below it.
- 64-bit overflow of coin amounts and of yuan-to-coin conversion.
- Wallet side effects: notifications, interest records, popularity events on tips, payment-method names and signature checks of webhooks; the three amounts of CreateRecharge's packages are kept.
- ExtractShareCode: its regular expressions over pasted text.
- HTTP handlers, routing, configuration, metrics, accounts, messages, reports, transcoding, storage and the frontend.
