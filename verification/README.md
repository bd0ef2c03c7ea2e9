# Verified model of the game backend

A Dafny model of the state a server-authoritative game backend keeps: the player economy, the ledger
auditor, sessions and refresh tokens, the achievement retry queue, the key-value store with its rate
limiter, the skin pool and the game configuration. `dafny verify dfyconfig.toml` checks everything.

Handlers and algorithms that update state step by step are methods on classes (`PlayerStore`,
`GachaHandler`, `MemStore`, `Tables`) or methods with loops, each proved against a specification function;
the theorems about runs are about those functions. Concurrency is modelled by machines whose actions are
single statements or store calls (`CairnRace`, `RateLimit`, `Sessions`, `RetryQueue`): `Run` folds a
total `Apply` over any sequence of actions, so a statement about every sequence is a statement about every
interleaving.

| files | what they hold |
|---|---|
| `Cairn`, `CairnRace`, `CairnTransactions` | lazy seeded growth; the same code under concurrent statements; what the transaction around it is for |
| `Economy`, `IdleRequests`, `GrowthTiming`, `EconomyBooks`, `EconomyAnswers`, `Draws`, `PlayerStore` | one player's rows under sync, state, pull, vow and login; what idle requests change; when slots grow; the books over whole runs; when a pull or vow goes through; what is drawn and paid; the handlers in place |
| `Vow`, `Inventory`, `Rarities` | crafting rules, stacks of items, drop table |
| `Audit`, `AuditTheorems`, `AuditSeconds`, `LedgerTrail` | the ledger auditor and what its verdict means |
| `CooldownCache`, `GachaHandler` | the cached cooldown |
| `TtlMap`, `Decimal`, `MemStore`, `RateLimit`, `Limiter` | the store, and the limiter on it |
| `Sessions`, `RefreshTokens`, `SessionStore` | single session and token rotation |
| `RetryQueue`, `RetryRecovery`, `RetryLoss`, `RetryAttempts`, `RetryWorker` | retry table and deque; crashes and reloads; what a crash loses; what is tried before giving up |
| `SkinPool`, `GameConfig`, `Prelude` | the skin table, the configuration, shared vocabulary |

Conventions: time is whole seconds; points and rates are `real`; `growthSeed`, rolls and fresh ids are
uninterpreted inputs; every SQL statement is atomic and a transaction is all or nothing.

## Where the code does not do what is said of it

Each of these is a lemma with a concrete run or ledger, next to the exact condition or the assumption under
which the promise does hold.

- `internal/diag/economy.go:185` says that real same-second events lower the balance monotonically. A pull
  that banks idle points raises it; spent from within the same second, an honest ledger is flagged
  (`AuditSeconds.HonestLedgerFlagged`). The sort moves the raising row behind the rows of its second that
  start above it. With any number of rows a second, an honest ledger audits clean exactly when every such
  row fits where it lands: behind the last row that passed it, and before what follows
  (`AuditSeconds.CleanExactlyWhenRaisesFit`). With at most two rows a second that means that the next second
  has earned the spend back (`AuditSeconds.PairsNeedEarningBack`); with three it is not enough
  (`AuditSeconds.EarningBackIsNotEnough`).
- `internal/diag/economy.go:72` says unlogged accrual cannot exceed its ceiling. It can, by an epsilon per
  gap and no more (`AuditTheorems.UnloggedCanPassTheCeiling`, `AuditTheorems.UnloggedIsPlausible`). The promise
  holds for every part of a ledger exactly when every accepted gap is within its own ceiling
  (`AuditTheorems.PlausibleExactlyWithinCeilings`), as it is for honest descending ledgers and runs stamped
  within the margin (`AuditTheorems.HonestRunIsPlausible`) and for all honest ledgers and runs stamped at once,
  even flagged ones (`AuditSeconds.StampedRunIsPlausible`).
- `enqueueRetry` pushes the item before it inserts the row (`internal/achievement/handler.go:218-226`). A
  worker that pops in between drops the item (`RetryRecovery.PushBeforeInsertDropsTheItem`), and the row waits
  for the next restart, which brings it back (`RetryRecovery.RestartBringsTheItemBack`). Deque and table agree
  exactly as long as the worker finishes no item in between (`RetryQueue.AgreesExactlyWhileUndisturbed`), hence
  always when both are one step (`RetryQueue.QueueAgreesWithTable`); and whatever has happened, every restart
  makes them agree again (`RetryRecovery.BootRestoresAgreement`, `RetryRecovery.RestartRepairs`).
- A crash after an unlock's INSERT and before that of its retry row leaves an unlock that is not yet marked as
  synced so for good: no row exists to reload, and every later unlock is answered as already done
  (`RetryRecovery.CrashedUnlockIsNeverSynced`), even when the item had been pushed
  (`RetryLoss.CrashBetweenPushAndInsertLoses`). At any point of any run an unlock is so lost exactly when it is
  neither marked as synced nor in the table and no request that won it is left
  (`RetryLoss.LostExactlyWithoutWinner`); a crash adds exactly the unlocks that are neither and whose winner
  was on its way (`RetryLoss.CrashLosesExactly`). Marked as synced is the database's flag: Steam itself may
  have been told, when the crash came between its answer and the update.
- A cache write of `setCooldown` that fails is ignored (`internal/gacha/gacha.go:447-450`). Pulls are still
  decided by the gate in the transaction (`CooldownCache.CacheChangesNoRun`), but a status request can then
  say that the player can pull (`CooldownCache.AMisledRun`). `CooldownCache.StatusIsRight` says exactly when
  it is right; it is wrong only within d seconds of the last pull, when no call takes more than d seconds
  from its clock reading to its cache write (`CooldownCache.MisledOnlyBriefly`).
- The locks of `session.go` expire. A section that outlasts its lock leaves two live sessions, a refresh
  that does redeems one token twice (`Sessions.AStalledLoginLeavesTwoSessions`,
  `RefreshTokens.AStalledRefreshRedeemsTwice`). Sections shorter than the lock never do
  (`Sessions.AtMostOneSession`, `RefreshTokens.RedeemedAtMostOnce`).
- When both the re-arming and the deletion of a TTL-less counter fail the caller is pinned for ever
  (`RateLimit.BothRepairsFail`, `RateLimit.LostIsForever`); while no deletion fails, every key at rest expires
  (`RateLimit.AtRestEveryKeyExpires`).
- `ApplyGrowth` outside a transaction can overfill a slot (`CairnRace.WithoutTransactionsASlotOverfills`).
  When each call holds one, as all callers do, no slot passes the cap in any interleaving
  (`CairnTransactions.TransactionsKeepTheCap`).

## Model

| member | source | states |
|---|---|---|
| Cairn.GrowthIsScheduleIndependent | internal/cairn/cairn.go:195-290 | any sequence of growth calls, even out of order and across early exits, leaves the slots and anchor of one call at the latest clock |
| Cairn.GrowTwice | internal/cairn/cairn.go:195-263 | two calls in either order of their clocks leave what the later one alone leaves: the remainder is carried |
| Cairn.StepsSplit | internal/cairn/cairn.go:195-203 | the steps owed at one clock plus those still owed at another are those owed at the later of the two |
| Cairn.StepsIsQuotient | internal/cairn/cairn.go:200 | the steps are the floor of elapsed time by interval |
| Cairn.GrowStepsCredit | internal/cairn/cairn.go:244-259 | n steps credit exactly min(n, remaining capacity) layers and never pass the cap |
| Cairn.GrowStepsMonotone | internal/cairn/cairn.go:279-289 | growth takes no layer from any slot |
| Cairn.Saturated | internal/cairn/cairn.go:253-255 | leaving the loop once every slot is complete gives what all the remaining steps would |
| Cairn.PassOnce | internal/cairn/cairn.go:246-258 | one pass adds the step's layer to the slot its seed picks, and reports a full table exactly when it is full |
| Cairn.Distribute | internal/cairn/cairn.go:241-259 | the loop's gains added to the loaded slots are the slots after all steps |
| GrowthTiming.StepGrowsThePickedSlot | internal/cairn/cairn.go:244-258 | a step adds one layer to the incomplete slot that has exactly hash mod count incomplete slots below it, and to no other; with none incomplete it adds nothing |
| GrowthTiming.GrowthReadsItsStamps | internal/cairn/cairn.go:246-257 | growth depends on the hash at anchor + i * interval for its own steps i = 1, 2, .. only |
| GrowthTiming.NothingIsBanked | internal/cairn/cairn.go:261-263 | after growth the anchor is less than an interval behind the clock, also when every slot is full |
| GrowthTiming.SyncBeforeRepair | internal/cairn/cairn.go:232-239 | for every player with an anchor, slots missing or not, a sync before a state read leaves the growth of the state read alone: growth is postponed until the repair, not lost |
| GrowthTiming.RepairAddsNothing | internal/cairn/cairn.go:74-90 | a repair makes every slot present, keeps every stored layer and adds none |
| GrowthTiming.SlotsTakeTimeToFill | internal/cairn/cairn.go:261-289 | two committed pulls of one slot, with any run between them, are more than MaxLayers - 1 intervals apart |
| CairnRace.NoWindowCreditedTwice | internal/cairn/cairn.go:265-276 | over statement-level interleavings of calls and logins, windows won by the compare-and-swap are non-empty and pairwise disjoint |
| CairnRace.CreditFitsElapsedTime | internal/cairn/cairn.go:261-289 | layers written plus layers won equal the initial ones plus the credit, and the credited intervals fit the anchor's advance |
| CairnRace.UndisturbedCallIsGrow | internal/cairn/cairn.go:166-291 | the statements of one call, undisturbed, leave exactly the anchor and slots of the specified growth |
| CairnTransactions.TransactionsKeepTheCap | internal/cairn/cairn.go:293-308 | over every interleaving of calls that hold a transaction each, with logins anywhere, no slot passes the cap |
| CairnTransactions.QuietRunsKeepTheCap | internal/cairn/cairn.go:265-289 | what that rests on: the cap holds as long as slots are loaded only while no winner of the compare-and-swap is still writing |
| CairnRace.WithoutTransactionsASlotOverfills | internal/cairn/cairn.go:293-308 | the transaction is needed: without it two calls can lift a slot above the cap |
| Rarities.DetermineRarity | internal/gacha/rng.go:62-69 | the scan of the threshold table gives the rarity whose share of the ten thousand the roll falls in |
| Rarities.DropOdds | internal/gacha/rng.go:27-38 | of 10000 rolls exactly 8000, 1000, 500, 490 and 10 give each rarity |
| Vow.ComputeRarities | internal/vow/vow.go:182-206 | succeeds exactly for craftable materials that make a base rarity, and the target is one above it |
| Vow.OrderIsScarcity | internal/vow/vow.go:437-452 | one rarity is above another in crafting exactly when the drop table rolls it less often |
| Vow.BaseBetweenMaterials | internal/vow/vow.go:178-206 | craftable materials make a base rarity between the lowest and highest one used |
| Vow.BaseIgnoresOrder | internal/vow/vow.go:185-206 | the base rarity does not depend on the order of the materials |
| Vow.BaseIsNearestAverage | internal/vow/vow.go:200-205 | the base is the rarity nearest to the weighted average, and a half rounds up |
| Vow.SuccessRateShape | internal/vow/vow.go:417-425 | paying more never lowers the odds, the ends of the range give the tier's rates, nothing leaves them |
| Vow.OddsAreLinear | internal/vow/vow.go:421-424 | within the range equal steps in payment buy equal steps in odds |
| Vow.ConsumeMaterials | internal/vow/vow.go:269-286 | the conditional updates succeed exactly when the stock covers the summed demand of a list that may repeat items, and leave the stock less that demand without empty rows |
| Vow.RemainingTotal | internal/vow/vow.go:269-286 | a covered vow removes exactly as many items as its materials weigh and leaves every row at one or more |
| Inventory.TotalUpdate | internal/gacha/grant.go:46-68 | changing one stack changes the total item count by that stack's difference |
| Inventory.TotalPrune | internal/vow/vow.go:283-285 | deleting empty rows loses no item |
| IdleRequests.IdleRequestsAreInvisible | internal/player/player.go:68-106 | from a ready player, a run between two logins and the same run without its syncs and state reads decide every pull and vow alike and end in the same player once settled to one time |
| IdleRequests.SameStep | internal/gacha/gacha.go:206-311 | a pull or vow answers alike for two players that differ only in what is still pending, and leaves them so |
| IdleRequests.IdleStep | internal/player/player.go:189-193 | an idle request credits what was pending and nothing else |
| IdleRequests.SyncBeforeLogin | internal/auth/handler.go:213-221 | a sync just before a login is invisible if and only if nothing was pending |
| EconomyBooks.PointsBalance | internal/gacha/gacha.go:279-311 | over every run, balance plus spent is initial plus rate times (last sync less start less discarded offline time), and the balance is never negative |
| EconomyBooks.AccrualNeverTakes | internal/player/player.go:68-106 | whatever the clocks say, accrual is the rate times the seconds since the last sync, none when the clock has gone back or was never set |
| EconomyBooks.LogRowsHold | internal/gacha/gacha.go:309-347 | rows are only appended and each satisfies after = before + accrued - cost with accrued not negative |
| EconomyBooks.LayersBalance | internal/gacha/gacha.go:236-264 | over every run no slot passes the cap, layers plus MaxLayers times pulls are the initial layers plus the credit, and the credit fits the anchor's advance |
| EconomyBooks.PullsAreBounded | internal/gacha/gacha.go:243-264 | the number of committed pulls is bounded by the initial layers and the elapsed time |
| EconomyBooks.ItemsBalance | internal/vow/vow.go:269-306 | over every run, items are the initial ones plus pulls plus vows less the required count per vow, and no stack is empty |
| EconomyBooks.PullsAreSpaced | internal/gacha/gacha.go:217-234 | any two committed pulls of a run are at least a cooldown apart |
| EconomyBooks.NewPlayersStartWithNothing | internal/auth/handler.go:172-191 | over every run of a new player, MaxLayers * interval * pulls is at most the time since the row was made, balance and spending are what accrued since then, and every item comes from a pull or vow |
| EconomyBooks.FirstLoginStartsGrowth | internal/auth/handler.go:213-221 | and the pulls are bounded by the time since the first login |
| EconomyAnswers.PullIsCommittedExactlyWhen | internal/gacha/gacha.go:206-311 | after any run, a pull is committed if and only if its slot exists and is full, no committed pull is less than a cooldown ago, and what the run has earned and not spent covers the cost; it leaves exactly what the cost leaves |
| EconomyAnswers.PullsSayWhy | internal/gacha/gacha.go:206-311 | and each rejection is given exactly when its condition is the first that fails |
| EconomyAnswers.PaymentsPassExactlyWhen | internal/vow/vow.go:118-154 | a payment passes the checks if and only if positive counts of craftable materials add up to the required number and the tier one rarity above their base has it in range |
| EconomyAnswers.VowIsAnsweredExactlyWhen | internal/vow/vow.go:154-306 | after any run, a vow is answered if and only if its payment passes, the funds cover it and the stock covers the materials; it then succeeds exactly when its roll is on or below the line of its own tier's odds at its payment |
| EconomyAnswers.VowsSayWhy | internal/vow/vow.go:208-286 | and each rejection is given exactly when its condition is the first that fails |
| EconomyAnswers.AnswersAreCurrent | internal/player/player.go:68-206 | a sync answers the run's funds, a state read every slot's layers up to date, a commit what is then in stock |
| Draws.DrawHasTheRarity | internal/gacha/pool.go:166-182 | on every pool that loads without an error, every draw for every rarity and random numbers answers, with a skin of that rarity: the empty-pool error cannot happen |
| Draws.PullPaysItsRarity | internal/gacha/gacha.go:313-330 | a committed pull pays one more of a pool skin whose rarity is the one its raw roll falls in |
| Draws.VowPaysItsRarity | internal/vow/vow.go:288-306 | over raw random numbers, an answered vow pays a pool skin exactly one rarity above the base when it succeeds and of the base when it fails, never below the lowest material nor more than one above the highest |
| Draws.PlayersHoldSkins | internal/vow/vow.go:297-306 | over every run of drawn requests a player holds skins of the pool only |
| PlayerStore.PlayerStore.constructor | internal/auth/handler.go:172-191 | a new row has balance zero, its accrual clock at creation and every slot present and empty |
| PlayerStore.PlayerStore.InitializeSlots | internal/cairn/cairn.go:77-90 | missing slots are inserted empty, existing ones are kept |
| PlayerStore.PlayerStore.ApplyGrowth | internal/cairn/cairn.go:166-291 | growth in place is the specified growth, including the unset anchor and missing slots |
| PlayerStore.PlayerStore.Sync | internal/player/player.go:68-106 | accrual commits and growth is best effort |
| PlayerStore.PlayerStore.GetState | internal/player/player.go:173-206 | missing slots are repaired before growth |
| PlayerStore.PlayerStore.AccrueAndDeduct | internal/gacha/gacha.go:266-311 | pays exactly when balance plus accrual covers the cost, and appends the row derived from the change |
| PlayerStore.PlayerStore.ClaimSlot | internal/gacha/gacha.go:206-264 | the cooldown gate, growth and the claim of a complete slot, with the first check that fails |
| PlayerStore.PlayerStore.ClaimAndPay | internal/gacha/gacha.go:206-311 | every rejection of a pull is decided before the roll and rolls every row back |
| PlayerStore.PlayerStore.GrantRolled | internal/gacha/gacha.go:313-330 | the roll on the loaded pool, and one more of what it gives |
| PlayerStore.PlayerStore.GrantPicked | internal/vow/vow.go:297-306 | the pick by rarity answers, and one more of what it gives is granted |
| PlayerStore.PlayerStore.Pull | internal/gacha/gacha.go:206-365 | gate, growth, slot claim, payment, roll, grant and log; a rejection rolls back and leaves every row as before |
| PlayerStore.PlayerStore.ValidatePray | internal/vow/vow.go:118-154 | the checks before the transaction in their order, and the success rate and the two rarities they lead to |
| PlayerStore.PlayerStore.PayVow | internal/vow/vow.go:208-286 | pays and takes the materials, or answers the first of the two that is missing and rolls every row back |
| PlayerStore.PlayerStore.Pray | internal/vow/vow.go:208-336 | payment, materials, success roll, draw of the reward and grant; a rejection rolls back and leaves every row as before |
| PlayerStore.PlayerStore.ResetAccrualAnchor | internal/auth/handler.go:213-221 | both clocks restart and nothing pending is credited |
| Audit.AuditLedger | internal/diag/economy.go:155-300 | totals, order, both passes, first and last balance of the report |
| Audit.CheckTransition | internal/diag/economy.go:225-272 | accepts a transition exactly when some ordering explains it, and otherwise classifies it |
| Audit.CheckGaps | internal/diag/economy.go:218-273 | the anomalies, accepted gaps and ceilings over all neighbours |
| AuditTheorems.AuditedOrder | internal/diag/economy.go:184-199 | whatever order the query returns, the sort recovers the balance chain of any sorted ledger |
| AuditTheorems.CleanReport | internal/diag/economy.go:201-273 | a report is clean if and only if every row identity and every transition of the recovered order hold |
| AuditTheorems.AnomaliesAreReal | internal/diag/economy.go:203-272 | each anomaly names an event, and the residual, drop or excess it states is there and beyond its tolerance |
| LedgerTrail.LogIsTheTrail | internal/gacha/gacha.go:309-347 | every run appends exactly the rows of its committed requests in order, each with its kind, id, stamp and cost and the balances before and after |
| LedgerTrail.ReportIsTheBooks | internal/diag/economy.go:155-182 | for every run from an empty log and any order of the query, the report counts the run's pulls and vows, its cost is what they spent, and its accrual what was earned less what was banked or thrown away |
| LedgerTrail.SameSecondIsReported | internal/diag/economy.go:218-235 | same_second_events if and only if two rows carry the same second |
| LedgerTrail.CeilingsTelescope | internal/diag/economy.go:243-245 | over rows in order the ceilings add up to the rate over their span and one margin for each change of second |
| AuditTheorems.HonestLedgerReconciles | internal/diag/economy.go:184-273 | an honest ledger in which no row of a second starts above its predecessor has no anomaly |
| AuditTheorems.HonestRunReconciles | internal/diag/economy.go:184-273 | the same for the ledger of every run of the economy whose rows are stamped within the margin |
| AuditTheorems.PromptRunReconciles | internal/diag/economy.go:184-273 | every run whose shared seconds hold no event raising the balance audits clean |
| AuditTheorems.CleanAuditBalances | internal/diag/economy.go:204-252 | for any ledger with distinct seconds, no anomaly implies last = first + accrued - cost + unlogged within the summed tolerances |
| AuditTheorems.UnloggedIsPlausible | internal/diag/economy.go:243-252 | for every ledger, unlogged accrual is at most the ceilings plus one epsilon per gap |
| AuditTheorems.UnloggedCanPassTheCeiling | internal/diag/economy.go:244-245 | without the epsilons that is false |
| AuditTheorems.WithinCeilingsIsPlausible | internal/diag/economy.go:72 | for every ledger in order whose accepted gaps are within their ceilings, unlogged accrual is at most the summed ceilings, with no epsilon |
| AuditTheorems.PlausibleExactlyWithinCeilings | internal/diag/economy.go:72 | exactly then: the promise holds for every contiguous part of a ledger if and only if every accepted gap is within its own ceiling |
| AuditTheorems.PlausibleReport | internal/diag/economy.go:72 | the same for the report, whatever order the query returns |
| AuditTheorems.HonestLedgerIsPlausible | internal/diag/economy.go:72 | the promise as it stands for honest descending ledgers stamped within the margin |
| AuditTheorems.HonestRunIsPlausible | internal/diag/economy.go:72 | and for the ledger of every such run of the economy |
| AuditSeconds.CleanExactlyWhenRaisesFit | internal/diag/economy.go:184-273 | for honest ledgers with any number of rows a second, clean if and only if every raising row that shares its second fits behind the rows that start above it and before what follows |
| AuditSeconds.RunCleanExactlyWhenRaisesFit | internal/diag/economy.go:184-273 | the same for the ledger of every run of the economy |
| AuditSeconds.PairsNeedEarningBack | internal/diag/economy.go:184-273 | with two rows in the second, fitting is the next second reaching the raised balance again |
| AuditSeconds.HonestLedgerFlagged | internal/diag/economy.go:184-186 | an honest ledger that is flagged |
| AuditSeconds.EarningBackIsNotEnough | internal/diag/economy.go:184-186 | with three rows in a second an honest ledger that earns the spend back is flagged all the same |
| AuditSeconds.StampedLedgerIsPlausible | internal/diag/economy.go:72 | honest ledgers stamped at once keep the promise of the ceiling, flagged or not |
| AuditSeconds.StampedRunIsPlausible | internal/diag/economy.go:72 | and so does every run of the economy so stamped |
| CooldownCache.CacheChangesNoRun | internal/gacha/gacha.go:110-176 | with entries lost and cache writes failing anywhere, every run leaves the player as without a cache |
| CooldownCache.CacheChangesNoAnswer | internal/gacha/gacha.go:110-160 | and every request is answered alike |
| CooldownCache.CachedIsStored | internal/gacha/gacha.go:179-204 | when no cache write fails a live cached value equals next_gacha_at |
| CooldownCache.StatusIsRight | internal/gacha/gacha.go:67-92 | a status answer is right if and only if no live entry disagrees during a cooldown |
| CooldownCache.StatusPredictsThePull | internal/gacha/gacha.go:67-92 | a status from the database says can pull exactly when no pull is refused for the cooldown, and otherwise names the first second at which none is |
| CooldownCache.AFailedWriteMisleadsStatus | internal/gacha/gacha.go:447-450 | after a lost write a status can promise a pull that every request is refused |
| CooldownCache.AMisledRun | internal/gacha/gacha.go:447-450 | a whole run that gets there: two pulls a cooldown apart, the second write lost, and a status that promises a pull during the cooldown |
| CooldownCache.MisledOnlyBriefly | internal/gacha/gacha.go:67-92 | over every run with entries lost and writes failing, a status answer is wrong only within d seconds of the last pull, d bounding the time from a call's clock reading to its write |
| GachaHandler.GachaHandler.GetNextGachaAt | internal/gacha/gacha.go:179-204 | cache first, row on a miss, refilled only while the cooldown runs |
| GachaHandler.GachaHandler.SetCooldown | internal/gacha/gacha.go:447-450 | the new time is kept for one cooldown |
| GachaHandler.GachaHandler.Status | internal/gacha/gacha.go:67-92 | whether the player can pull by the cached or stored time |
| GachaHandler.GachaHandler.Commit | internal/gacha/gacha.go:122-160 | the transaction, and the cache write after a commit only |
| GachaHandler.GachaHandler.Pull | internal/gacha/gacha.go:95-176 | fast path, transaction, and the cache after a commit |
| Decimal.WrapIsCongruent | pkg/kvstore/memory.go:110 | a counter's sum wraps to the 64-bit integer that differs from it by a multiple of 2^64 |
| Decimal.ParseFormat | pkg/kvstore/memory.go:104-111 | every 64-bit counter is read back as it was written |
| MemStore.StoreRefinesPlainMap | pkg/kvstore/memory.go:36-153 | in every run with sweeps anywhere, every other reply is that of a plain map of unexpired entries on the run without sweeps |
| MemStore.CounterCounts | pkg/kvstore/memory.go:99-115 | a counter counts on and keeps its expiry |
| MemStore.WritesAreRead | pkg/kvstore/memory.go:48-97 | a written value is read back exactly until its time to live is over and no other key changes; SetNX writes exactly when a read would find nothing, and Exists says whether one would find something |
| MemStore.LivesEnd | pkg/kvstore/memory.go:83-126 | Expire moves the end of a live key and nothing else, and a deleted key is not found |
| MemStore.CountersStart | pkg/kvstore/memory.go:99-115 | a counter starts at what is added, reads back in decimal and has no expiry |
| MemStore.ListsAreDeques | pkg/kvstore/memory.go:128-153 | RPop undoes RPush and takes first what LPush put first |
| MemStore.MemStore.constructor | pkg/kvstore/memory.go:29-34 | a new store is empty |
| MemStore.MemStore.GetEntry | pkg/kvstore/memory.go:36-46 | an expired entry is deleted when met, and nothing live changes |
| MemStore.MemStore.Get | pkg/kvstore/memory.go:48-56 | the live value or not found |
| MemStore.MemStore.Set | pkg/kvstore/memory.go:58-67 | the entry with its time to live, none when that is not positive |
| MemStore.MemStore.SetNX | pkg/kvstore/memory.go:69-81 | written exactly when no live entry is there |
| MemStore.MemStore.Del | pkg/kvstore/memory.go:83-90 | all named keys are gone |
| MemStore.MemStore.Exists | pkg/kvstore/memory.go:92-97 | whether a live entry is there |
| MemStore.MemStore.IncrBy | pkg/kvstore/memory.go:99-115 | adds with 64-bit wrap keeping the expiry, creates without one, refuses text |
| MemStore.MemStore.Expire | pkg/kvstore/memory.go:117-126 | rearms a live entry and nothing else |
| MemStore.MemStore.LPush | pkg/kvstore/memory.go:128-133 | at the head |
| MemStore.MemStore.RPush | pkg/kvstore/memory.go:135-140 | at the tail |
| MemStore.MemStore.RPop | pkg/kvstore/memory.go:142-153 | from the tail, or not found |
| MemStore.MemStore.Sweep | pkg/kvstore/memory.go:180-190 | evicts exactly the expired entries and counts both kinds |
| RateLimit.NoTtlExactlyWhileRepairing | internal/middleware/ratelimit.go:84-108 | over every interleaving with expiry and failing repairs, a counter without TTL exists if and only if a request is between its creation and repair or both repairs failed |
| RateLimit.AtRestEveryKeyExpires | internal/middleware/ratelimit.go:96-106 | with only Expire failing, every key at rest has a TTL |
| RateLimit.LostIsForever | internal/middleware/ratelimit.go:102-104 | once the deletion fails as well the key never expires |
| RateLimit.BothRepairsFail | internal/middleware/ratelimit.go:96-106 | a run, for any window, in which both repairs fail |
| RateLimit.KeysLiveOneWindow | internal/middleware/ratelimit.go:84-98 | a key that a request creates or re-arms lives exactly one window from then |
| RateLimit.AtMostLimitAdmitted | internal/middleware/ratelimit.go:47-71 | at most `limit` requests are admitted in one lifetime of a key |
| RateLimit.ExactlyTheLimitIsAdmitted | internal/middleware/ratelimit.go:47-71 | over every interleaving, the admitted requests of the current key are exactly as many as were counted, up to the limit, while nobody is repairing it |
| Limiter.IncrRateLimit | internal/middleware/ratelimit.go:84-108 | the count continues a live window or starts one, with the expiry each case leaves |
| Sessions.AtMostOneSession | internal/auth/session.go:26-48 | over every prompt interleaving of logins, refreshes, logouts and expiry, a player has at most one live session at every instant, and whenever the lock is free the current pointer names it |
| Sessions.LoginSucceeds | internal/auth/handler.go:110-135 | an undisturbed login that finds the lock free succeeds, its session and token are current, the previous session is gone and no other key changes |
| Sessions.LoginRefused | internal/auth/session.go:28-34 | one that finds it taken fails and writes nothing |
| Sessions.LoggedOutForGood | internal/auth/session.go:101-112 | after a logout its session is never stored again, in every continuation |
| Sessions.LogoutTakesTheCurrentSession | internal/auth/session.go:101-112 | logging out of the current session takes its pointer and refresh token along, of another one neither |
| Sessions.AStalledLoginLeavesTwoSessions | internal/auth/session.go:28-35 | a section that outlasts its lock leaves two |
| RefreshTokens.RedeemedAtMostOnce | internal/auth/refresh.go:37-124 | over every interleaving of prompt refreshes with logins and logouts, no token is redeemed twice, and a stored token is an unredeemed one issued to its player |
| RefreshTokens.RefreshSucceeds | internal/auth/refresh.go:37-124 | an undisturbed refresh of the stored token succeeds, rotates it and leaves both locks free |
| RefreshTokens.RefreshRefused | internal/auth/refresh.go:37-110 | an undisturbed refresh that is refused for any reason ends with every key as before and no lock held |
| RefreshTokens.AStalledRefreshRedeemsTwice | internal/auth/refresh.go:52-63 | a refresh that outlasts its lock can redeem a token again |
| SessionStore.Evict | internal/auth/session.go:37-42 | the session that is current is deleted, and no other key |
| SessionStore.Install | internal/auth/session.go:35-48 | the new session and the pointer to it are stored and the lock released |
| SessionStore.EnforceSingleSession | internal/auth/session.go:26-48 | refused exactly while the lock is held; otherwise the lock leaves no trace, the old session is gone and the new one current |
| SessionStore.OnlyTheNewSession | internal/auth/session.go:37-47 | after it only the new session of the two is left |
| SessionStore.LogoutSession | internal/auth/session.go:101-112 | removes the session, and with the current one its pointer and refresh token |
| SessionStore.StoreRefreshToken | internal/auth/session.go:50-55 | the token is stored for its player and found by its value |
| SessionStore.RotateLocked | internal/auth/refresh.go:65-124 | the checks under the lock in their order, and nothing changed unless all pass |
| SessionStore.AuthRefresh | internal/auth/refresh.go:37-124 | rotates exactly when the answer is success, otherwise leaves everything live as it was |
| SessionStore.OldTokenIsRefused | internal/auth/refresh.go:123-124 | the rotated token is invalid from then on, and the new one is accepted after the cooldown |
| SessionStore.ReplacedTokenIsRevoked | internal/auth/refresh.go:85-99 | a token that a later login has replaced is answered as revoked, and the newer one accepted |
| SessionStore.GoodTokensWait | internal/auth/refresh.go:37-110 | a good token waits for another refresh, the cooldown or a login under way, and is invalid once forgotten |
| SessionStore.NewTokenLives | internal/auth/refresh.go:111-124 | the rotated token waits for the cooldown and is invalid after its time to live |
| RetryQueue.QueueAgreesWithTable | internal/achievement/worker.go:131-236 | over every run with crashes, no pair is inserted twice, and while the server is up deque and worker hold exactly the pending rows, each once |
| RetryQueue.AgreesExactlyWhileUndisturbed | internal/achievement/handler.go:218-226 | with push and insert as two statements, a run keeps agreeing with the rows that are or are about to be pending if and only if the worker never finishes an item between the two |
| RetryQueue.RetriesAreBounded | internal/achievement/worker.go:175-208 | in such runs the worker asks Steam at most maxRetries times per row, plus once per crash |
| RetryQueue.NoAnsweredUnlockIsForgotten | internal/achievement/handler.go:112-168 | in such runs every unlock answered as new is synced, waiting in the deque, or dead-lettered at the limit |
| RetryAttempts.DeadLettersWereRetried | internal/achievement/worker.go:175-208 | over every run, disturbed or not, a row counts at most as many failures as Steam was asked, so a dead-lettered one was asked maxRetries times |
| RetryAttempts.FailedRowTakesItsTurn | internal/achievement/worker.go:175-187 | a failed row reloads behind what is due within a tick of its failure and before what is due after it |
| RetryAttempts.FailureGoesToTheBack | internal/achievement/worker.go:175-187 | at any point of any run a failure puts its row behind every row that has not failed yet |
| RetryRecovery.BootRestoresAgreement | internal/achievement/worker.go:54-91 | the reload statement by statement: over every run, whatever the worker has dropped before, with crashes anywhere, also between the pops and pushes of a reload, leaving anything in the deque, whenever a step starts the server popping yields exactly the pending rows, each once, in next_retry_at order |
| RetryRecovery.RestartRepairs | internal/achievement/worker.go:45-52 | from any state at all, a crash and an undisturbed reload leave deque and worker holding exactly the pending rows, with the database unchanged |
| RetryRecovery.ReloadComesUp | internal/achievement/worker.go:54-91 | from any leftovers an undisturbed reload ends, starts the server, and leaves the query's answer to be popped in order |
| RetryRecovery.SomeOrder | internal/achievement/worker.go:55-58 | such an order always exists |
| RetryRecovery.CrashedUnlockIsNeverSynced | internal/achievement/handler.go:112-166 | a crash before enqueueRetry leaves the unlock unmarked as synced in every continuation |
| RetryLoss.LostExactlyWithoutWinner | internal/achievement/handler.go:112-226 | at any point of any run, with enqueueRetry as the two statements it is, an unlocked pair is neither marked as synced nor given a row in every continuation if and only if it is neither now and no request that won it is left |
| RetryLoss.CrashLosesExactly | internal/achievement/handler.go:112-226 | after a crash exactly the unlocks neither marked as synced nor in the table are lost, and it adds exactly those whose winner is between its INSERT and that of the row |
| RetryLoss.CrashBetweenPushAndInsertLoses | internal/achievement/handler.go:218-226 | a crash between the two statements loses the unlock although its item was in the deque |
| RetryLoss.SyncedBeforeItsRow | internal/achievement/handler.go:218-226 | unless the worker was faster: a run that leaves the pair synced with neither a row nor a winner |
| RetryRecovery.PushBeforeInsertDropsTheItem | internal/achievement/handler.go:218-226 | push before insert lets the worker drop the item; until the next crash its row waits uncounted |
| RetryRecovery.RestartBringsTheItemBack | internal/achievement/worker.go:45-52 | and the next restart holds the waiting row again |
| RetryWorker.ItemRoundTrips | internal/achievement/worker.go:157-162 | an item names its row again if and only if the player id has no colon |
| RetryWorker.ComesBackWhilePending | internal/achievement/worker.go:175-236 | an item comes back exactly when its row is still pending, and no other row changes status |
| RetryWorker.StatementsAreProcessOne | internal/achievement/worker.go:156-236 | the statements of the interleaved worker, undisturbed, do exactly what processing the item does |
| RetryWorker.Tables.ProcessOne | internal/achievement/worker.go:156-236 | malformed and unknown items are dropped, failures counted up to the cap, successes marked and resolved |
| RetryWorker.ProcessBatch | internal/achievement/worker.go:131-154 | every queued item and every arrival in time is attempted once in order; later pops yield the failed ones in that order ahead of later arrivals |
| RetryWorker.PushBackAll | internal/achievement/worker.go:148-153 | the reverse loop at the tail keeps the pop order |
| RetryWorker.QueryPending | internal/achievement/worker.go:54-58 | the query: the pending rows, each once, by next_retry_at |
| RetryWorker.ReloadPendingRetries | internal/achievement/worker.go:54-91 | what the deque held is gone and popping it yields the items of exactly the pending rows, each once, in next_retry_at order |
| RetryWorker.ReloadedIsMachineQueue | internal/achievement/worker.go:54-91 | item by item that deque decodes to the one with which the interleaved reload starts the server |
| SkinPool.ParseSkinPool | internal/gacha/pool.go:56-154 | the first duplicate or the lowest empty rarity is an error; otherwise the indexes hold exactly the good rows and the counts add up, whatever the order of map iteration |
| SkinPool.FirstRepeatIsFirst | internal/gacha/pool.go:122-125 | the duplicate reported is the first: no id before it repeats |
| SkinPool.EmptyRarityIsMostCommon | internal/gacha/pool.go:146-153 | the rarity reported empty has no skin and every one rolled more often has some |
| SkinPool.ReadRows | internal/gacha/pool.go:85-134 | each row is classified in the order of the checks and counted once |
| SkinPool.GoodRowsAreWritten | internal/gacha/pool.go:93-134 | a row loads as a skin if and only if its three cells, up to surrounding space and the case of the last two, write that skin's id, part and rarity, and the id is normal |
| SkinPool.BadRowsSayWhy | internal/gacha/pool.go:95-124 | each other row is counted under the first thing that is wrong with it |
| SkinPool.WrittenPoolLoads | internal/gacha/pool.go:85-134 | every table of skins with normal ids loads as it was written |
| SkinPool.CellSetsTheOdds | internal/gacha/rng.go:27-38 | what a row says in its rarity column sets the share of the ten thousand rolls that draw it |
| SkinPool.LoadedIdsAreNormal | internal/gacha/pool.go:100-114 | every loaded id is non-empty, trimmed and free of upper case, so no spelling variant escapes duplicate detection |
| SkinPool.NoteParts | internal/gacha/pool.go:136-141 | visiting the maps in any order notes each non-empty part once per rarity |
| SkinPool.SortedIsIndex | internal/gacha/pool.go:142-144 | sorting makes the part lists independent of that order |
| SkinPool.EachSkinInOneBucket | internal/gacha/pool.go:128-133 | every loaded skin is once in the bucket of its part and rarity, in no other, and RarityOf agrees |
| SkinPool.PickHasTheRarity | internal/gacha/pool.go:166-182 | for every seed a pick is a skin of the rarity asked for, and fails exactly when there is none |
| SkinPool.EverySkinCanBePicked | internal/gacha/pool.go:163-182 | every loaded skin is drawn for some seed |
| SkinPool.Roll | internal/gacha/pool.go:186-207 | unguarded indexing never leaves an accepted pool, and the skin has the rolled rarity |
| GameConfig.BuildVowTiers | pkg/gameconfig/gameconfig.go:145-177 | accepts exactly the non-empty lists of complete, well-ordered tiers with distinct targets above Common, in document order |
| GameConfig.ValidateTier | pkg/gameconfig/gameconfig.go:179-205 | a tier passes exactly when its numbers are present, finite and the right way round |
| GameConfig.TiersAreAsWritten | pkg/gameconfig/gameconfig.go:145-205 | an element yields a tier if and only if it writes it, by its target's name and each number in its own attribute, and the tier is well-ordered and not for Common |
| GameConfig.Validate | pkg/gameconfig/gameconfig.go:216-263 | a configuration passes exactly when all its bounds and divisibilities hold |
| GameConfig.AcceptedRulesAreValid | pkg/gameconfig/gameconfig.go:216-263 | an accepted configuration satisfies what the economy assumes, keeps every tier and divides the phase exactly |

## Left out

- HTTP, JSON, logging and status codes: handlers return outcome values. A player without a `player_states` row (404) is not modelled.
- SQL text, drivers and migrations: a table is a map or sequence, a statement one step, a transaction all or nothing. Other failing database statements and the internal errors they cause are not modelled.
- Redis and PostgreSQL: `MemStore` stands for the store. Its failures appear where a protocol reacts to them: `Expire` and `Del` in `RateLimit`, lost entries and writes in `CooldownCache`, arbitrary leftovers in `RetryQueue`. The limiter's fail-open branch is left out.
- Timestamp text (section 5.6 of RFC 3339): whole seconds, compared as integers; a handler call reads one clock, and its log row may be stamped `delay` seconds later. A clock that overflows 64-bit nanoseconds is not modelled.
- Randomness, hashing and tokens: rolls, seeds and fresh ids are inputs. `growthSeed` is any function of the step's second.
- Rounding of floats: points, rates and averages are `real`; the auditor's epsilons and margin are kept as constants. Sums of material counts do not wrap.
- RateLimit.AtMostLimitAdmitted: counts per lifetime of the key; the 64-bit wrap of the counter, at which `IncrBy` would start over, is modelled in `MemStore` only.
- Sessions.AtMostOneSession: assumes sections shorter than the lock's TTL, logout as one step and no failing store call inside a section.
- RefreshTokens.RedeemedAtMostOnce: assumes fresh token ids and refreshes shorter than the refresh lock's TTL; token signing, ticket claims and login streaks are left out.
- SessionStore.AuthRefresh: one clock reading and no interference; interference is what the machines are about. Token ids carry no colon.
- RetryQueue.QueueAgreesWithTable: assumes `enqueueRetry` as one step and successful database statements, except the update that marks a fresh unlock; a panic of the worker alone is not modelled, a crash of the server is.
- RetryWorker.ProcessBatch: arrivals are grouped by the pop they precede; the answers of Steam are an input.
- IdleRequests.IdleRequestsAreInvisible: needs slots initialised and anchors set. The log columns that record how much was pending, `balance_before` and `accrued_pts`, differ and are compared without them.
- EconomyBooks.PointsBalance: a started player, that is an accrual clock set and not ahead of the first call, slots initialised and an accrual rate that is not negative; the same holds for the other results on runs, and those on idle requests and on the auditor want the growth anchor set as well. A clock that goes back accrues nothing (`EconomyBooks.AccrualNeverTakes`) and is covered by single steps only.
- AuditSeconds.CleanExactlyWhenRaisesFit: rows stamped in the second in which they accrue; rows stamped later, by up to the margin, are covered by `AuditTheorems.HonestLedgerReconciles` while the rows of a second descend. Accrual within a second is left out.
- CooldownCache.AFailedWriteMisleadsStatus: one step from a state it describes; `CooldownCache.AMisledRun` is a run that reaches such a state.
- RateLimit.LostIsForever: from a state in which both repairs have failed; `RateLimit.BothRepairsFail` is a run that reaches one.
- RetryLoss.LostExactlyWithoutWinner: of the flag steam_synced; what Steam itself has been told is not modelled. Database statements succeed, except the update that marks a fresh unlock.
- RetryWorker.ReloadPendingRetries: query and store answer without an error; rows due at the same time are taken in any order.
- PlayerStore.PlayerStore.ApplyGrowth: an unset anchor heals to the call's clock rather than to the database's. `started_at`, `claimed_at` and the display phase do not take part in growth and are left out, as is the pruning of surplus slots at boot.
- Debug options of the vow endpoint and the inventory's provenance columns.
- SkinPool.LoadedIdsAreNormal: trimming and case are those of ASCII, the source's are those of Unicode.
- SkinPool.ParseSkinPool: the CSV reader is a library, so parsing starts at its records; trimming and lower-casing are those of ASCII, and parts and rarities are enumerations.
- GameConfig.Validate: answers whether the file passes, not the message; missing top-level keys and the XML reader are left out.
- Steam clients, health checks, conditions of achievements, configuration from the environment, recovery middleware, dashboards and scripts.
