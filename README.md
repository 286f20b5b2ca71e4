# BSC alpha-trade analyzer: a verified model of its core

This project models the core of a small browser application. The application reads one
address's transactions and BEP-20 token transfers on BNB Smart Chain from an explorer API,
reconstructs the swaps the address made, and reports two things:

- an "alpha score" computed from the doubled USD volume of swaps that buy Binance Alpha tokens;
- a profit-and-loss summary of the swaps routed through the Binance DEX router.

The model is written in Dafny, with one module per source file:

| module | source file | what it holds |
|---|---|---|
| `Common` | shared helpers | `Option`/`Result`, ASCII lower-casing (`toLowerCase`), JavaScript `slice`, de-duplication (`new Set`) |
| `Types` | `src/types/index.ts` | the record shapes, `STABLE_TOKENS`, `SCORE_LEVELS` and facts about those tables |
| `Scoring` | `src/services/analyzer.ts` | `calculateScore`, `getNextLevelAmount`, `getCurrentLevelInfo` as loops, proved against the doubling curve `2^k` |
| `Analyzer` | `src/services/analyzer.ts` | class `TransactionAnalyzer`: price resolution, grouping transfers by hash, leg selection, trade valuation, `analyzeAlphaTrades`, `analyzePNL` |
| `Storage` | `src/services/storage.ts` | class `StorageService` over a `localStorage` map: settings, the most-recently-used address history, and the one-shot migration |
| `Utils` | `src/utils/index.ts` | `isValidAddress`, `shortenAddress`, `getProgressPercentage` |
| `PancakePrice` | `src/services/pancakePrice.ts` | the multi-hop path encoding, the quote fallback order, and class `PancakePriceService` with its 30-second cache |
| `Coingecko` | `src/services/coingecko.ts` | class `MarketWebbService`: BNB price with fallback, the alpha price map, and its 5-minute cache |
| `Bscscan` | `src/services/bscscan.ts` | class `BSCScanService`: status handling, UTC-midnight block lookup, and the pagination loops |

Modelling choices:

- **Amounts.** Token amounts are exact reals. A transfer's amount is `value / 10^tokenDecimal`, with the raw value and the decimals as natural numbers.
- **Addresses.** Addresses are strings. `toLowerCase` is modelled on ASCII letters.
- **Network calls.** Every call that leaves the program is a parameter of the method that makes it:
  - the explorer API, the market API and the alpha token list are function-valued parameters or decoded responses;
  - the on-chain pool factory, quoter and `decimals()` calls are the fields of a `Chain` value.
- **Clock.** `Date.now()` is a `now` parameter.
- **Stored state.** Where the source keeps static mutable state, the model has a class whose fields the methods update:
  - the migration flag and `localStorage` in `StorageService`;
  - the price caches in `PancakePriceService` and `MarketWebbService`.

Behaviour of the source that the model keeps as written:

- **WBNB is a stablecoin.** `STABLE_TOKENS` lists WBNB, so `isStableCoin(WBNB)` holds. A swap that sells WBNB is valued at one dollar per WBNB, and every branch that tests for WBNB after the stablecoin test can never run.
- **Alpha-to-alpha swaps.** `analyzeAlphaTrades` values an alpha-to-alpha swap from the bought leg. The profit-and-loss trade list always values a swap from the sold leg.
- **Router filter.** Only `analyzePNL` keeps just the transfers whose main transaction touches the router; `analyzeAlphaTrades` does not filter.
- **Duplicate hashes.** The hash-to-transaction map keeps the last transaction with a given hash. The router filter's `find` takes the first.
- **Largest leg.** Leg selection keeps the earliest of equally large legs, because it compares with a strict `>`.
- **Inflow first.** In the balance loop, a transfer to the primary user counts as inflow before its sender is checked.
- **Trade order.** Trades are sorted by descending timestamp. The sort is stable: trades with equal timestamps keep their input order (`SortStable`).
- **No lower clamp on progress.** `getProgressPercentage` caps at 100 but does not clamp below 0.
- **`slice(-0)`.** `shortenAddress(a, 0)` appends the whole address, because `slice(-0)` is `slice(0)`.

Where the declared result interfaces in `src/types/index.ts` (`AlphaTradeResult`, `PNLResult`) differ from the objects `analyzer.ts` actually returns, the model follows `analyzer.ts`:

- the alpha result also has `actualValue` and `levelInfo`;
- the PNL result also has `allTrades` and `trades`.

## Model

| member | source | states |
|---|---|---|
| Common.Lower | src/services/analyzer.ts:57 | lower-casing keeps the length, maps each character on its own, and leaves no upper-case letter |
| Common.LowerIdempotent | src/services/analyzer.ts:456 | lower-casing an address that is already lower-cased changes nothing, so re-normalising the key before the price lookup is harmless |
| Common.LowerOfLowerCase | src/types/index.ts:143-147 | a string with no upper-case letter is its own lower-case form |
| Common.LoweredListMembership | src/services/analyzer.ts:90-93 | in a list of lower-case strings, membership is the same as "some entry lower-cases to it", which is the test `isStableCoin` performs |
| Common.LowerConcat | src/services/pancakePrice.ts:240 | lower-casing distributes over concatenation |
| Common.SlicePosition | src/utils/index.ts:9 | a JavaScript slice index lands in `[0, len]`, and a negative index counts from the end |
| Common.SliceFrom | src/utils/index.ts:9 | `slice(start)` is the suffix from the normalised start index |
| Common.Distinct | src/services/analyzer.ts:33 | `[...new Set(xs)]` keeps every element of `xs`, adds none, and has no duplicates |
| Types.ScoreLevelsIncreasing | src/types/index.ts:149-154 | the tier thresholds and the tier scores are both strictly increasing |
| Types.ScoreLevelsDoubling | src/types/index.ts:150-154 | each tier threshold is exactly twice the previous one |
| Types.ScoreLevelsConsecutive | src/types/index.ts:150-154 | there are five tiers and the i-th (from 0) scores i + 1 |
| Types.UsdtIsLower | src/types/index.ts:144 | the USDT address is 42 characters and already lower-case |
| Types.UsdcIsLower | src/types/index.ts:145 | the USDC address is 42 characters and already lower-case |
| Types.WbnbIsLower | src/types/index.ts:146 | the WBNB address is 42 characters and already lower-case |
| Types.StableTokensShape | src/types/index.ts:143-147 | `STABLE_TOKENS` is exactly USDT, USDC and WBNB, each 42 characters and lower-case |
| Types.WbnbIsStableToken | src/types/index.ts:146 | WBNB is one of the `STABLE_TOKENS` |
| Scoring.Log2Floor | src/services/analyzer.ts:248-251 | for a volume of at least 1, the result k satisfies `2^k <= v < 2^(k+1)` |
| Scoring.Clamp | src/services/analyzer.ts:317 | the clamped progress lies in `[0, 100]` and a value already in range is unchanged |
| Scoring.LevelScoreBand | src/services/analyzer.ts:229-257 | every volume in `[2^k, 2^(k+1))` with k ≥ 1 scores exactly k |
| Scoring.LevelScoreBounds | src/services/analyzer.ts:229-257 | the score is 0 exactly when the volume is below 2, and a positive score k puts the volume in `[2^k, 2^(k+1))` |
| Scoring.ScoreLevelsFollowCurve | src/types/index.ts:149-154 | tier i has threshold `2^(i+1)`, and the curve gives that threshold the tier's own score |
| Scoring.ScoreBeyondTable | src/services/analyzer.ts:242-254 | past the table every doubling adds one point: scores at 32, 64 and 128 are 5, 6 and 7, and `2^k` scores k |
| Scoring.NextThresholdLeast | src/services/analyzer.ts:263-277 | the next-level target is above the volume, at least 2, and no larger than any power of two above the volume |
| Scoring.BandOfVolume | src/services/analyzer.ts:289-306 | below 2 the band is `[0, 2)`; otherwise the next level is twice the current one and the volume lies in `[current, next)` |
| Scoring.ProgressMonotoneInBand | src/services/analyzer.ts:309-317 | within one score band, more volume never shows less progress |
| Scoring.CalculateScore | src/services/analyzer.ts:229-257 | the table loop followed by the doubling loop returns the score of the doubling curve |
| Scoring.GetNextLevelAmount | src/services/analyzer.ts:260-281 | the result is half the distance to the next-level target, and it is positive |
| Scoring.GetCurrentLevelInfo | src/services/analyzer.ts:284-319 | `[currentLevel, nextLevel)` is `[0, 2)` below 2 and otherwise a doubling band containing the volume; `nextLevel` is the target `getNextLevelAmount` uses; progress is clamped to `[0, 100]` |
| Analyzer.ShiftDecimals | src/services/analyzer.ts:137 | scaling down by `10^decimals` keeps a non-negative value non-negative and is positive exactly when the value is |
| Analyzer.ShiftDecimalsDivides | src/services/analyzer.ts:137 | multiplying the scaled value back by `10^decimals` gives the raw value |
| Analyzer.Amount | src/services/analyzer.ts:137-138 | a transfer's amount is non-negative, and positive exactly when its raw value is |
| Analyzer.AmountIsScaledValue | src/services/analyzer.ts:427 | a transfer's amount is `value / 10^tokenDecimal` |
| Analyzer.StableCoinAsWritten | src/services/analyzer.ts:90-93 | `isStableCoin` holds exactly when some `STABLE_TOKENS` entry equals the address ignoring case |
| Analyzer.WbnbAsWritten | src/services/analyzer.ts:156 | the WBNB test is case-insensitive equality with the WBNB address |
| Analyzer.StableCoins | src/services/analyzer.ts:90-93 | the stablecoins are exactly USDT, USDC and WBNB, ignoring case |
| Analyzer.WbnbIsStableCoin | src/services/analyzer.ts:162-166 | any address that passes the WBNB test also passes the stablecoin test, so the WBNB valuation branch cannot run |
| Analyzer.SentBy | src/services/analyzer.ts:129 | the outgoing legs are exactly the group's transfers sent by the user |
| Analyzer.ReceivedBy | src/services/analyzer.ts:130 | the incoming legs are exactly the group's transfers received by the user |
| Analyzer.SentByAppend | src/services/analyzer.ts:129 | filtering a concatenation is the concatenation of the filtered parts, so the outgoing legs keep the group's order |
| Analyzer.ReceivedByAppend | src/services/analyzer.ts:130 | filtering a concatenation is the concatenation of the filtered parts, so the incoming legs keep the group's order |
| Analyzer.LargestIndex | src/services/analyzer.ts:136-140 | the reduce picks a leg whose amount is at least every other leg's, and strictly more than every earlier leg's, so ties keep the earliest |
| Analyzer.LargestLegIsMaximal | src/services/analyzer.ts:136-146 | the chosen leg belongs to the side and no leg on that side is larger |
| Analyzer.ParseLegs | src/services/analyzer.ts:123-146 | a group yields no legs exactly when the main transaction is missing, there are fewer than two transfers, or the sender of the main transaction sends nothing or receives nothing; otherwise the sold leg is the user's and the bought leg is to the user |
| Analyzer.SoldLegEarliest | src/services/analyzer.ts:129-140 | the chosen outgoing leg sits at a position of the group before which every transfer sent by the user is strictly smaller |
| Analyzer.BoughtLegEarliest | src/services/analyzer.ts:130-146 | the chosen incoming leg sits at a position of the group before which every transfer received by the user is strictly smaller |
| Analyzer.ParseLegsPicksLargest | src/services/analyzer.ts:129-146 | the sold and bought legs are each the largest on their side, and among equally large legs of the group each is the first in the group's order |
| Analyzer.TxMapLastWins | src/services/analyzer.ts:107-110 | the hash map has a key exactly for each hash present, and it maps to the last transaction carrying that hash |
| Analyzer.FindTx | src/services/analyzer.ts:347 | `find` fails exactly when no transaction has the hash, and otherwise returns the first transaction that has it |
| Analyzer.WithHash | src/services/analyzer.ts:113-120 | the sub-list for a hash holds exactly the transfers with that hash |
| Analyzer.NoneWithHash | src/services/analyzer.ts:113-120 | a hash carried by no transfer has an empty group |
| Analyzer.HashOrderMatchesGroups | src/services/analyzer.ts:113-123 | the iteration order lists every group's hash once and no other hash |
| Analyzer.GroupsAreHashClasses | src/services/analyzer.ts:113-120 | the groups are keyed by exactly the hashes that occur, and each group is the in-order list of the transfers with its hash |
| Analyzer.SumUsdAppend | src/services/analyzer.ts:190-192 | the USD total of two trade lists joined is the sum of their totals |
| Analyzer.SumUsdPush | src/services/analyzer.ts:190-192 | pushing a trade adds its USD value to the total |
| Analyzer.InsertByTimestamp | src/services/analyzer.ts:223 | inserting a trade into a list adds exactly that trade, with the same multiset and USD total |
| Analyzer.InsertKeepsOrder | src/services/analyzer.ts:223 | inserting into a list sorted by descending timestamp keeps it sorted |
| Analyzer.SortByTimestampDesc | src/services/analyzer.ts:223 | the sort returns a permutation of the trades, ordered by descending timestamp, with the same USD total |
| Analyzer.InsertStable | src/services/analyzer.ts:223 | inserting a trade puts it ahead of the trades with its timestamp and keeps the order of the trades of every timestamp |
| Analyzer.SortStable | src/services/analyzer.ts:223 | the sort is stable: for every timestamp, the trades with that timestamp appear in their input order |
| Analyzer.SortKeepsTrades | src/services/analyzer.ts:223 | sorting neither adds nor loses a trade |
| Analyzer.SortKeepsDistinctHashes | src/services/analyzer.ts:223 | sorting trades with distinct hashes leaves their hashes distinct |
| Analyzer.RouterTransfers | src/services/analyzer.ts:346-353 | a transfer is kept exactly when the first transaction with its hash exists and has the router as sender or receiver |
| Analyzer.GasCostUsd | src/services/analyzer.ts:329-333 | a transaction's gas cost in USD is never negative |
| Analyzer.GasCostNonNegative | src/services/analyzer.ts:328-335 | the total gas cost is never negative |
| Analyzer.FlowsNonNegative | src/services/analyzer.ts:444-450 | the accumulated inflow and outflow of a contract are never negative |
| Analyzer.FlowsOfAbsent | src/services/analyzer.ts:429-450 | a contract that no transfer touches has zero inflow and zero outflow |
| Analyzer.WithFlow | src/services/analyzer.ts:467-469 | the reported balances are exactly those with some inflow or some outflow |
| Analyzer.SumPnlWithFlow | src/services/analyzer.ts:460-469 | dropping balances with no flow does not change the total PNL, because such a balance has zero net amount |
| Analyzer.SumPnlAppend | src/services/analyzer.ts:461 | the PNL total of two balance lists joined is the sum of their totals |
| Analyzer.LowerAll | src/services/analyzer.ts:33 | each requested address is lower-cased in place |
| Analyzer.DropStable | src/services/analyzer.ts:34-40 | the filter keeps exactly the addresses that are neither stablecoins nor WBNB, and keeps a duplicate-free list duplicate-free |
| Analyzer.PriceQuery | src/services/analyzer.ts:33-40 | the addresses sent for pricing are distinct, lower-case, not stablecoins, and are exactly the lower-cased non-stable requested addresses |
| Analyzer.ContractOrder | src/services/analyzer.ts:429-440 | the balance map's keys are exactly the lower-cased contracts of the transfers, each listed once |
| Analyzer.ValuesInOrder | src/services/analyzer.ts:460 | every listed balance is the map's entry for one of its keys; when every key of the order is in the map, the list holds exactly one entry per key, in key order |
| Analyzer.WithFlowKeepsDistinct | src/services/analyzer.ts:460-463 | dropping the balances without flow never makes two entries share a contract |
| Analyzer.PushTrade | src/services/analyzer.ts:188-192 | pushing a trade keeps the actual volume equal to the USD total and the scoring volume equal to twice that |
| Analyzer.AlphaTokenMapLookup | src/services/analyzer.ts:17-22 | the alpha map has a key exactly for each lower-cased listed contract address, and maps it to a listed token with that address |
| Analyzer.AlphaTokenMapLastWins | src/services/analyzer.ts:17-22 | of several listed tokens with one lower-cased address, the map holds the last |
| Analyzer.IndexByHash | src/services/analyzer.ts:107-110 | the forEach loop builds the last-wins hash map |
| Analyzer.GroupByHash | src/services/analyzer.ts:113-120 | the forEach loop builds the groups and their first-seen order, with each group hash listed once |
| Analyzer.TransactionAnalyzer.constructor | src/services/analyzer.ts:15-23 | a new analyzer has the alpha map of its token list, no real-time prices, and a BNB price of 600 |
| Analyzer.TransactionAnalyzer.GetTokenPrice | src/services/analyzer.ts:56-82 | the price is the real-time price of the lower-cased address if there is one, else 1 for a stablecoin, else the alpha list's price, else 0 |
| Analyzer.TransactionAnalyzer.TokenPriceIgnoresCase | src/services/analyzer.ts:56-98 | price, alpha status and stablecoin status do not depend on the address's case |
| Analyzer.TransactionAnalyzer.WbnbPricedAsStableCoin | src/services/analyzer.ts:65-73 | without a real-time WBNB price, WBNB is priced at 1 and never at the BNB price |
| Analyzer.TransactionAnalyzer.IsAlphaToken | src/services/analyzer.ts:85-87 | the test lower-cases its argument, so it gives the same answer for the address and for its lower-cased form |
| Analyzer.TransactionAnalyzer.QualifiesForScore | src/services/analyzer.ts:154-157 | a swap qualifies exactly when it buys an alpha token with a stablecoin or another alpha token; the WBNB case adds nothing because WBNB is a stablecoin |
| Analyzer.TransactionAnalyzer.TokenPriceNonNegative | src/services/analyzer.ts:56-82 | with non-negative real-time and list prices, every resolved price is non-negative |
| Analyzer.TransactionAnalyzer.UsdValue | src/services/analyzer.ts:160-172 | a swap that sells a stablecoin is worth the sold amount; with non-negative prices no swap has a negative value |
| Analyzer.TransactionAnalyzer.PnlIgnoresBuyLeg | src/services/analyzer.ts:396-407 | the PNL valuation never depends on the bought leg; unless a stablecoin was sold, it is the sold amount times the sold token's price |
| Analyzer.TransactionAnalyzer.AlphaIgnoresSoldToken | src/services/analyzer.ts:160-172 | unless a stablecoin was sold, the scoring valuation is the bought amount times the bought token's price, whatever non-stable token was sold |
| Analyzer.TransactionAnalyzer.WbnbSoldAtAmount | src/services/analyzer.ts:162-163 | a swap that sells WBNB is valued at the sold amount, one dollar per WBNB |
| Analyzer.TransactionAnalyzer.TradeOf | src/services/analyzer.ts:123-193 | a trade is kept exactly when the group's legs parse, the pair qualifies (for scoring only), and the swap's `UsdValue` is positive; a kept trade comes from those legs, carries the hash and that value, and for scoring buys an alpha token |
| Analyzer.TransactionAnalyzer.LoneTransferNoTrade | src/services/analyzer.ts:125 | a group with a single transfer never yields a trade |
| Analyzer.TransactionAnalyzer.TradesOfStep | src/services/analyzer.ts:123-211 | visiting one more hash appends that group's trade, if any, to the trades so far |
| Analyzer.TransactionAnalyzer.TradesSound | src/services/analyzer.ts:123-211 | there are at most as many trades as hashes; each has a positive USD value, one of the visited hashes and, for scoring, a qualifying pair; distinct hashes give trades with distinct hashes |
| Analyzer.TransactionAnalyzer.BalanceKeys | src/services/analyzer.ts:425-440 | the balance map has an entry exactly for each contract in the filtered transfers |
| Analyzer.TransactionAnalyzer.BalancesMatchFlows | src/services/analyzer.ts:425-458 | each balance is for its key's contract, holds its inflow and outflow, is priced by `getTokenPrice`, and has net = in − out and pnl = net × price |
| Analyzer.TransactionAnalyzer.BalancesFromFirstTransfer | src/services/analyzer.ts:429-440 | each balance keeps the address spelling, symbol and name of the first transfer of its contract |
| Analyzer.TransactionAnalyzer.ApplyTransferKeepsOpening | src/services/analyzer.ts:429-442 | a transfer opens its contract's balance from its own address, symbol and name when none is open, and never changes those fields of an open balance |
| Analyzer.TransactionAnalyzer.BalanceListMatchesFlows | src/services/analyzer.ts:460 | every balance in the listed values has the flows, price, net and pnl of its contract |
| Analyzer.TransactionAnalyzer.UpdateRealTimePrices | src/services/analyzer.ts:26-53 | when the main-coin call succeeds the BNB price is replaced, and the real-time map becomes the fetched prices of the filtered addresses when that list is non-empty and the token-price call succeeds; a throwing call ends the update and keeps the values already set |
| Analyzer.TransactionAnalyzer.CollectAlphaTrades | src/services/analyzer.ts:102-211 | the loop over hash groups collects exactly the scoring trades, with actual volume = Σ USD values and scoring volume = twice that |
| Analyzer.TransactionAnalyzer.AnalyzeAlphaTrades | src/services/analyzer.ts:101-226 | the trades are the scoring trades sorted by descending timestamp, each qualifying and positive with a distinct hash; total volume = 2 × actual volume = 2 × Σ USD values; score, next-level amount and level info are those of the total volume |
| Analyzer.TransactionAnalyzer.CollectPnlTrades | src/services/analyzer.ts:373-423 | the loop over the router transfers' hash groups collects, in hash order, the trade `TradeOf` keeps for each group under the PNL valuation |
| Analyzer.TransactionAnalyzer.AccumulateBalances | src/services/analyzer.ts:425-458 | the loop leaves the balance map and its key order as the fold of all router transfers |
| Analyzer.TransactionAnalyzer.BalanceListOncePerContract | src/services/analyzer.ts:425-463 | the reported balance list has one entry for every contract the user moved, and no contract twice |
| Analyzer.TransactionAnalyzer.BalanceValuesFollowOrder | src/services/analyzer.ts:425-460 | `Array.from(tokenBalances.values())` has one entry per contract in first-seen order, each carrying that contract's inflow and outflow |
| Analyzer.TransactionAnalyzer.AnalyzePNL | src/services/analyzer.ts:322-475 | gas cost is the non-negative sum over all transactions; every trade is positive and the list is sorted by descending timestamp; the reported balances are those with flow, one per contract the user moved and none twice, each carrying its router inflow and outflow for the primary user, net and pnl at the current price; total PNL is their pnl sum; the passed alpha trades are returned or `[]` |
| Storage.StoredSettings | src/services/storage.ts:73-83 | with nothing truthy stored under the settings key, the settings are an empty API key; stored settings are returned as stored |
| Storage.SettingsRoundTrip | src/services/storage.ts:64-83 | settings written under the settings key read back as written, whatever the store held |
| Storage.HistoryRoundTrip | src/services/storage.ts:110-126 | a history written under the history key reads back as written, whatever the store held |
| Storage.StoredHistory | src/services/storage.ts:116-126 | with nothing truthy stored under the history key, the history is empty; a stored history is returned as stored |
| Storage.FindIndex | src/services/storage.ts:89 | `findIndex` returns the first case-insensitive match, or −1 exactly when there is none |
| Storage.SavedHistory | src/services/storage.ts:86-107 | after a save the history holds between 1 and 10 entries |
| Storage.SavedAddressFirst | src/services/storage.ts:88-102 | after a save, entry 0 matches the address ignoring case and carries the new timestamp; an existing match keeps its stored casing, a new entry has the given casing |
| Storage.SavedKeepsOrder | src/services/storage.ts:93-107 | after a save the other entries follow in their old order, cut to 10 in all |
| Storage.OthersExclude | src/services/storage.ts:94 | removing the match leaves only entries of the old history that do not match, still without case-insensitive duplicates |
| Storage.SavedNoDuplicates | src/services/storage.ts:89-101 | a history without case-insensitive duplicates has none after a save |
| Storage.WithoutAddress | src/services/storage.ts:132 | removal keeps exactly the entries that do not match the address ignoring case |
| Storage.WithoutAddressAppend | src/services/storage.ts:132 | removal works entry by entry, so it keeps the order of what remains |
| Storage.WithoutAbsentAddress | src/services/storage.ts:132 | removing an address that is not present leaves the history unchanged |
| Storage.MigratedHistory | src/services/storage.ts:37-40 | the migrated history has one entry per old address, in the old order |
| Storage.MigratedNewestFirst | src/services/storage.ts:37-40 | migrated timestamps start at now and strictly decrease with the index |
| Storage.MigrateApiKey | src/services/storage.ts:22-29 | the API key migrates exactly when an old key is present and no settings are stored |
| Storage.MigrateHistory | src/services/storage.ts:32-48 | the history migrates exactly when an old list is present, parses, and no new history is stored |
| Storage.MigrationApiKey | src/services/storage.ts:21-29 | stored settings are never overwritten; a migrated key becomes the settings and the old key is removed |
| Storage.MigrationIdempotent | src/services/storage.ts:12-61 | running the migration over an already-migrated store changes nothing and reports no migration |
| Storage.StorageService.constructor | src/services/storage.ts:8-9 | a new service has not migrated yet |
| Storage.StorageService.MigrateOldData | src/services/storage.ts:12-61 | afterwards the flag is set; a repeat call or unavailable storage returns false and leaves storage alone; the first call applies both migrations and reports whether either ran |
| Storage.StorageService.SaveSettings | src/services/storage.ts:64-83 | only the settings key is written, and nothing changes when storage is unavailable; afterwards `getSettings` returns the saved settings, or the empty API key when storage is unavailable |
| Storage.StorageService.GetSettings | src/services/storage.ts:73-83 | the empty API key when storage throws or holds nothing truthy under the settings key; stored settings otherwise |
| Storage.StorageService.GetAddressHistory | src/services/storage.ts:116-126 | the empty list when storage throws or holds nothing truthy under the history key; the stored history otherwise |
| Storage.StorageService.SaveAddressToHistory | src/services/storage.ts:86-113 | only the history key is written, and it holds the saved history of the old history; afterwards `getAddressHistory` returns the saved history of the old history, or the empty list when storage is unavailable, and the settings read as before |
| Storage.StorageService.RemoveAddressFromHistory | src/services/storage.ts:129-137 | only the history key is written, and it holds the old history without the address; afterwards `getAddressHistory` returns the old history without the address, or the empty list when storage is unavailable, and the settings read as before |
| Storage.StorageService.ClearAddressHistory | src/services/storage.ts:140-146 | the history key is removed and nothing else changes; afterwards `getAddressHistory` returns the empty list and the settings read as before |
| Utils.HexRunMeans | src/utils/index.ts:3 | `[a-fA-F0-9]{n}` matches exactly a string of n hex digits of either case |
| Utils.ValidAddressShape | src/utils/index.ts:2-4 | an address is valid exactly when it is 42 characters, starts with lower-case "0x", and the other 40 are hex digits |
| Utils.ValidAddressLowered | src/utils/index.ts:2-4 | lower-casing a valid address keeps it valid |
| Utils.ShortenAddress | src/utils/index.ts:7-10 | a shortened address is never longer than twice the input plus the ellipsis |
| Utils.ShortenEmpty | src/utils/index.ts:8 | the empty address shortens to the empty string |
| Utils.ShortenAddressParts | src/utils/index.ts:9 | for `chars` in range, the result is the first `chars + 2` characters, "...", and the last `chars`, of length `2·chars + 5` |
| Utils.ShortenAddressDefaultLength | src/utils/index.ts:7-10 | a 42-character address with the default of 4 shortens to 13 characters |
| Utils.ShortenAddressZeroChars | src/utils/index.ts:9 | with `chars = 0` the whole address follows the ellipsis, since `slice(-0)` is `slice(0)` |
| Utils.GetProgressPercentage | src/utils/index.ts:63-66 | a zero target gives 0; otherwise the result is the smaller of `current/target·100` and 100 |
| Utils.ProgressFullAtTarget | src/utils/index.ts:65 | reaching a positive target gives exactly 100 |
| Utils.ProgressBelowTarget | src/utils/index.ts:65 | below a positive target the result is the uncapped ratio, in `[0, 100)` |
| Utils.ProgressNotClampedBelow | src/utils/index.ts:63-66 | for a positive target, any negative current value gives the uncapped, negative percentage |
| PancakePrice.DigitValue | src/services/pancakePrice.ts:226 | a lower-case hex digit denotes a value below 16 |
| PancakePrice.ToHex | src/services/pancakePrice.ts:226 | `toString(16)` gives at least one digit, all of them lower-case hex |
| PancakePrice.PadStart | src/services/pancakePrice.ts:226 | `padStart` reaches the width unless the string is already longer |
| PancakePrice.ToHexRoundTrip | src/services/pancakePrice.ts:226 | reading the hex digits back gives the number |
| PancakePrice.ToHexLength | src/services/pancakePrice.ts:226 | a number below `16^k` needs at most k hex digits |
| PancakePrice.LeadingZeros | src/services/pancakePrice.ts:226 | leading zeros do not change a hex value |
| PancakePrice.FeeHexRoundTrip | src/services/pancakePrice.ts:225-226 | a fee below `2^24` encodes as exactly six lower-case hex digits that read back as the fee |
| PancakePrice.StrippedAddress | src/services/pancakePrice.ts:222 | for a "0x" address of 42 characters, lower-casing and removing the first "0x" leaves the 40 address digits |
| PancakePrice.StrippedAll | src/services/pancakePrice.ts:222-230 | every hop address is lower-cased and loses its "0x", position by position |
| PancakePrice.EncodedPath | src/services/pancakePrice.ts:217-234 | encoding fails exactly when the path is not one longer than the fee list |
| PancakePrice.EncodePath | src/services/pancakePrice.ts:217-234 | the index loop builds the encoded path, or the length error |
| PancakePrice.JoinedStep | src/services/pancakePrice.ts:224-231 | one loop step appends the next fee's hex and the next stripped address |
| PancakePrice.PartsPrefix | src/services/pancakePrice.ts:224-231 | every prefix of a well-shaped route is well shaped |
| PancakePrice.JoinedLength | src/services/pancakePrice.ts:222-231 | the joined hops are 40 characters per address and 6 per fee |
| PancakePrice.JoinedPartAt | src/services/pancakePrice.ts:222-231 | the i-th address sits at offset 46·i |
| PancakePrice.JoinedFeeAt | src/services/pancakePrice.ts:224-228 | the i-th fee sits right after the i-th address and reads back as the fee |
| PancakePrice.StrippedRouteShaped | src/services/pancakePrice.ts:222-230 | a route of well-formed addresses and 24-bit fees strips to 40-digit parts |
| PancakePrice.EncodedAddressAt | src/services/pancakePrice.ts:217-234 | the encoded path has length `2 + 40·|path| + 6·|fees|` and its i-th address field, with "0x", is the lower-cased i-th address |
| PancakePrice.EncodedFeeAt | src/services/pancakePrice.ts:217-234 | the i-th 6-digit field of the encoded path reads back as the i-th fee |
| PancakePrice.EncodedPathLayout | src/services/pancakePrice.ts:217-234 | the encoded path is "0x" followed by address, fee, address, …, with every address lower-cased and every fee readable, at the stated length |
| PancakePrice.TokenDecimals | src/services/pancakePrice.ts:53-62 | the token's reported decimals, or 18 when the call fails |
| PancakePrice.TryGetPrice | src/services/pancakePrice.ts:67-111 | a zero-address pool or a failed pool lookup gives no price; any price is the quoter's answer |
| PancakePrice.PancakeQuote | src/services/pancakePrice.ts:116-142 | a successful quote is positive |
| PancakePrice.PancakeQuoteOrder | src/services/pancakePrice.ts:116-142 | a positive direct USDT quote at fee 100 wins; otherwise a positive multi-hop quote; the call fails exactly when neither is positive |
| PancakePrice.MultiHopPathReadable | src/services/pancakePrice.ts:156-163 | the token → WBNB → USDT route with each fee option is a well-formed path, so its encoding has the proved layout |
| PancakePrice.GetTokenToUsdtViaMultiHop | src/services/pancakePrice.ts:147-212 | the route fails when the token has no WBNB pool; otherwise the fee-option loop returns the quote of the first option whose WBNB/USDT pool exists and whose quote succeeds, and fails when none does |
| PancakePrice.GetTokenPriceFromPancake | src/services/pancakePrice.ts:116-142 | the method follows the direct-then-multi-hop fallback |
| PancakePrice.CacheKeyDistinguishes | src/services/pancakePrice.ts:240 | for addresses without `_`, two cache keys are equal exactly when the addresses match ignoring case and the amounts are equal |
| PancakePrice.SeparatorIndex | src/services/pancakePrice.ts:240 | in a cache key built from an address without `_`, the first `_` is the separator after the address |
| PancakePrice.PancakePriceService.constructor | src/services/pancakePrice.ts:41-43 | a new service has an empty cache and no pending requests |
| PancakePrice.PancakePriceService.ExecuteGetTokenPrice | src/services/pancakePrice.ts:272-293 | the price is the quote, or 0 on failure; the cache gains the entry only for a positive price |
| PancakePrice.PancakePriceService.GetTokenPrice | src/services/pancakePrice.ts:239-267 | an entry younger than 30 s is returned with the cache unchanged; otherwise the quote (or 0) is returned and cached when positive; prices are never negative; the amount defaults to "1" |
| PancakePrice.PancakePriceService.ClearCache | src/services/pancakePrice.ts:298-301 | both the cache and the pending requests are emptied |
| Coingecko.CacheWindow | src/services/coingecko.ts:56-61 | an entry is valid exactly while less than 300000 ms have passed, and valid at every earlier moment too |
| Coingecko.PriceMapOf | src/services/coingecko.ts:131-139 | the map's prices are positive, and its keys are exactly the lower-cased addresses of BSC tokens with a positive price |
| Coingecko.PriceMapLastWins | src/services/coingecko.ts:134-139 | a listed token that no later listed token shadows gives its own price |
| Coingecko.UnlistedIgnored | src/services/coingecko.ts:132-138 | a token off BSC or without a positive price does not change the map |
| Coingecko.BuildPriceMap | src/services/coingecko.ts:131-139 | the forEach loop builds the price map |
| Coingecko.AlphaFetchOutcome | src/services/coingecko.ts:110-153 | a valid cache is served unchanged; otherwise an error or unsuccessful response gives an empty map and keeps the cache, and a good response replaces the cache with the new map, stamped now |
| Coingecko.FreshAlphaCacheServed | src/services/coingecko.ts:113-116 | within five minutes of a refresh, a second call returns the same prices whatever the API would answer |
| Coingecko.PricesFor | src/services/coingecko.ts:164-172 | the keys are exactly the lower-cased requested addresses that have a list price, and each value is that list price |
| Coingecko.PricesForRestriction | src/services/coingecko.ts:167-172 | the result is the list map restricted to the lower-cased requested addresses |
| Coingecko.MarketWebbService.constructor | src/services/coingecko.ts:54-55 | both caches start empty |
| Coingecko.MarketWebbService.GetBNBPrice | src/services/coingecko.ts:64-96 | a valid cached price is returned unchanged; otherwise a fetched price is returned and cached, and a failure returns 600 without touching the cache |
| Coingecko.MarketWebbService.GetMainCoinPrices | src/services/coingecko.ts:99-107 | BTC is always 95000 and ETH 3500; BNB is the cached, fetched or fallback BNB price |
| Coingecko.MarketWebbService.GetAlphaTokenPrices | src/services/coingecko.ts:110-153 | the returned map and the new cache follow the fetch outcome, and every price is positive |
| Coingecko.MarketWebbService.GetTokenPrices | src/services/coingecko.ts:156-180 | an empty request returns an empty map without fetching; otherwise the list prices of the requested addresses, with the cache updated as by the fetch |
| Coingecko.MarketWebbService.GetCachedTokenPrice | src/services/coingecko.ts:183-191 | the result is the list price of the lower-cased address if it has one, and none otherwise |
| Bscscan.BlockResult | src/services/bscscan.ts:26-29 | status "1" yields the result; another status fails with the response's message; a transport error fails |
| Bscscan.PageResult | src/services/bscscan.ts:67-74 | status "1" yields the page; another status yields an empty page; only a transport error fails |
| Bscscan.TodayStartTimestamp | src/services/bscscan.ts:37-41 | the timestamp is a whole number of days in seconds, and the current time lies within the day it starts |
| Bscscan.TodayStartPerDay | src/services/bscscan.ts:38-40 | every moment of a UTC day gives the same day start, and the next day starts 86400 s later |
| Bscscan.CollectedConcatenatesPages | src/services/bscscan.ts:116-128 | pagination returns the full pages in page order, followed by what the remaining pages give |
| Bscscan.CollectedStopsAt | src/services/bscscan.ts:116-128 | a fetch stops at the first page that is not full: its error aborts with no partial result, otherwise its items are appended and nothing after it is requested |
| Bscscan.CollectedReadsOnlyThrough | src/services/bscscan.ts:116-126 | pages after the first non-full page have no influence on the result |
| Bscscan.CollectedBoundIrrelevant | src/services/bscscan.ts:116-126 | the result does not depend on which later non-full page bounds the loop |
| Bscscan.FirstStop | src/services/bscscan.ts:116-126 | the pages before the first non-full page are all full, and no earlier page is non-full |
| Bscscan.CollectedStep | src/services/bscscan.ts:121-125 | a full page is appended and the next page is requested |
| Bscscan.BSCScanService.constructor | src/services/bscscan.ts:9-11 | the service keeps the API key and the endpoints it is given |
| Bscscan.BSCScanService.GetBlockByTimestamp | src/services/bscscan.ts:14-34 | the block query asks for the closest block before the timestamp, and its status is handled as in `BlockResult` |
| Bscscan.BSCScanService.GetTodayStartBlock | src/services/bscscan.ts:37-42 | the block of the current UTC day's start is looked up |
| Bscscan.BSCScanService.GetTransactions | src/services/bscscan.ts:45-75 | one `txlist` page is requested and its status is handled as in `PageResult`; the end block, page and offset default to 99999999, 1 and 1000 |
| Bscscan.BSCScanService.GetTokenTransactions | src/services/bscscan.ts:78-108 | one `tokentx` page is requested and its status is handled as in `PageResult`; the end block, page and offset default to 99999999, 1 and 1000 |
| Bscscan.BSCScanService.GetAllTransactions | src/services/bscscan.ts:111-129 | the `while (true)` loop returns the pagination result over 1000-entry `txlist` pages |
| Bscscan.BSCScanService.GetAllTokenTransactions | src/services/bscscan.ts:132-150 | the `tokentx` loop follows the same empty-page and short-page rules |
| Bscscan.BSCScanService.NonSuccessStatusEndsPagination | src/services/bscscan.ts:67-70 | a page whose status is not "1" counts as empty and ends pagination with nothing more |
| Bscscan.BSCScanService.GetTodayData | src/services/bscscan.ts:153-166 | a failed start-block lookup fails; otherwise the data holds the start block and both paginated lists, and it fails exactly when either list fails |

## Left out

- Case folding: `Lower` maps only the ASCII letters A–Z. JavaScript's `toLowerCase` also folds other Unicode letters; the addresses involved are ASCII.
- Floating point: amounts, prices and percentages are exact reals. IEEE rounding, `NaN` from an unparsable number, and the float-to-string round trips of `totalIn`/`totalOut`/`netAmount` are not modelled.
- Parsing: `parseFloat`/`parseInt` of decimal strings are not modelled. Raw values, decimals, gas figures and timestamps arrive as numbers. An unparsable alpha-list price is an absent price, which the filter at coingecko.ts:136 drops. A BNB ticker price that parses to `NaN` is not modelled: the BNB response is a number or an error.
- JSON: API responses and stored values are modelled as their decoded shapes. Malformed JSON appears only where the source catches it: an old address list that fails to parse, and a stored value that is not JSON.
- Network calls: axios requests, the ethers `JsonRpcProvider` and the pool factory, quoter and `decimals()` calls are oracle parameters. Timeouts and retries are not modelled.
- `parseUnits`/`formatUnits`: these are folded into the quoter oracle, which returns the quoted amount as a real.
- Unseen modules: the alpha token list `src/assets/coins/56` and the `./cexapi` module are not part of this model. The analyzer's token list is a constructor parameter, and its real-time price source is a function parameter.
- Analyzer.TransactionAnalyzer.UpdateRealTimePrices: the two price calls into `./cexapi` are parameters: the BNB price as an optional value and the token prices as a function of the address list, where `None` stands for a call that throws. The fetch is not tied to the `Coingecko` module, since `./cexapi` is not part of this model.
- Analyzer.TransactionAnalyzer.GetTokenPrice: the WBNB branch (analyzer.ts:70-73) is not modelled because no input reaches it. WBNB is a stablecoin, and `WbnbPricedAsStableCoin` proves that it is priced at 1.
- Unreachable WBNB valuation branches: the branches at analyzer.ts:164-166, 199-201 and 401-403 are left out for the same reason. `WbnbIsStableCoin` and `WbnbSoldAtAmount` prove they cannot run.
- Unused non-alpha valuation: analyzer.ts:194-210 computes a USD value for non-alpha swaps and then discards it. It is not modelled.
- Storage.StoredSettings: when the settings key holds valid JSON of another shape (a history list, say), `getSettings` returns that parsed value as it is. The model returns the empty API key instead, because a `Settings` value cannot hold another shape.
- Storage.StoredHistory: when the history key holds valid JSON that is not a history list, `getAddressHistory` returns that parsed value. The model returns the empty list.
- Storage.StorageService.SaveAddressToHistory: when the stored history is valid JSON but not a list of history entries, the source's `findIndex` or `toLowerCase` throws, the error is caught, and nothing is written. The model saves onto the empty list that `StoredHistory` yields.
- Storage.StorageService.RemoveAddressFromHistory: in the same case the source's `filter` or `toLowerCase` throws and nothing is written. The model writes the empty list.
- Storage.MigrateApiKey: the source copies whatever string the legacy key holds, JSON text included. In the model only a legacy key of plain text is migrated (`LegacyApiKeyText`); one holding JSON of a model shape is left in place.
- Storage.MigrateHistory: the source maps any JSON array found under the legacy key, whatever its elements are, and drops only values that fail to parse or are not arrays. The model migrates only a list of address strings and drops every other shape.
- Logging: every `console` call is left out.
- Storage failures: a `localStorage` that throws is modelled as unavailable for every access. Quota errors that affect some writes and not others are not modelled.
- Clock: `Date.now()` becomes one `now` for the whole call. This affects, for example, the timestamps of a migration.
- Pancake price service: the in-flight request coalescing in `getTokenPrice` (pancakePrice.ts:249-266) only deduplicates concurrent callers. In the model calls run one at a time, so the pending set is empty between calls.
- Bscscan.BSCScanService.GetAllTransactions: the source loops forever if every page is full. The model assumes a ghost bound `last`, a page that is not full, and proves that the result does not depend on which such page is chosen.
- Bscscan.BSCScanService.GetAllTokenTransactions: same bound as `GetAllTransactions`.
- Bscscan.BSCScanService.GetTodayData: when both fetches fail, `Promise.all` rejects with whichever fails first in time. The model reports the transaction list's error.
- Bscscan.TodayStartTimestamp: the UTC calendar decomposition is folded into flooring to a whole day. `Date`'s range limits are not modelled.
- Concurrency: the `async`/`await` interleavings are not modelled. Every call runs to completion before the next.
- Formatting and browser helpers: `formatNumber`, `formatUSD`, `formatLargeNumber`, `formatTimestamp` and `copyToClipboard` in `src/utils/index.ts` are locale formatting and a browser API.
- React UI: the components, pages, router and `src/services/calendar.ts` are not part of this model.
