# IRIS Hub: a verified model of its core

This project models the parts of IRIS Hub that everything else relies on, and proves what they
promise. It is written in Dafny 4.11; `dafny verify dfyconfig.toml` checks all of it.

Four layers, each built on the one before:

1. **The layered key-value store** (`Bytes`, `Listings`, `Iterators`, `Prefix`, `KVStores`,
   `Savepoints`, `MultiStores`). Caches buffer reads, writes and deletions over a parent of any kind; a merge
   iterator walks the parent and the dirty entries together; prefix stores carve out ranges. The
   stores are objects with their own caches, updated in place. Every one of them is shown to be a
   plain ordered map, in every sequence of operations, at every depth of the stack, while it is
   iterated and while it is written.
2. **The transaction runner and fees** (`TxSpec`, `Handlers`, `Transactions`, `TxReports`, `Blocks`,
   `BlockGas`, `BaseApp`, `Auth`, `Fees`, `FeesOnStores`, `Machines`, `AuthPrograms`, `FeePrograms`,
   `FeeHandlers`, `AnteCosts`, `FeeRuns`, `FeeExample`). `runTx` works on a multistore: it opens caches inside caches, runs ante handlers,
   messages and the refund, and ends in three deferred functions. Panics are outcome values and the
   deferred functions trailing steps. What a transaction leaves behind, what it costs, what it
   conserves and that it cannot be replayed are proved for every transaction and every run. Handlers
   are arbitrary programs that read and write the stores they are given. The auth module's own
   handlers, the fee pre-processing, the ante handler and the refund, are such programs, over
   stores that charge gas; so what is proved of fees and replays holds of the stores that the
   runner leaves, whatever the messages do.
3. **Governance** (`GovSpec`, `GovSteps`, `GovFacts`, `GovRuns`, `GovClosing`, `Gov`, `GovRefunds`,
   `GovKeys`, `GovStore`, `Tally`). Proposals, two
   queues, deposits, escrow and the critical slot form a state machine whose invariant holds in
   every run. The end-blocker tallies and settles exactly what is due, exactly once, and hands exactly
   the bonded validators that did not vote to Slash; when it panics is stated exactly. `GovStore`
   ties the decoded records and queues to the byte store of the first layer and its iterators.
4. **Numbers, coins and versions** (`Decimals`, `DecText`, `Units`, `Digits`, `Coins`, `Bank`,
   `Pruning`). Two independent roundings agree and are correct; text forms round trip; coin sets
   add up denomination by denomination; transfers conserve; pruning keeps what a reset needs.

`Chain`, `Arith` and `Sums` hold what several modules share.

The code and its plain description share small functions: a meter, a verdict, the parameters of a
kind. What these decide is written out a second time, with the source's numbers, and the two are
shown to be the same: `TxReports` follows a transaction handler by handler, `Auth.Authorized` and
`AnteCosts` say what the ante handler lets pass and what that costs, and `GovFacts` and `GovRuns` what
happens to a proposal.

## Where the code differs from what is said about it

- **Abstentions and rounding in the tally.** The comments in `modules/gov/tally.go` speak of the
  voters that do not abstain; the code divides by all votes cast, and compares rounded shares. The
  model follows the code. `Tally.JudgeAgreesIff` says for all votes exactly when the code's verdict
  is the described one; `Tally.AbstentionsCount`, `Tally.QuorumCanBeShort` and
  `Tally.VetoCanBeMissed` are votes on which it is not.
- **Dec.Quo.** It truncates before it rounds, so a quotient can miss the nearest decimal.
  `Decimals.QuoCanMissTheNearest` is such a quotient, and `Decimals.QuoIsCorrectlyRounded` says
  exactly when it happens.
- **Dec.String.** Between -1 and 0 the sign is counted as a digit. `DecText.RoundTripIff` says
  exactly which decimals can be read back.
- **The sortable time format** sorts up to the year 9999 only: `GovKeys.FormatSortsIff`.
- **The reported result.** A block that runs out of gas reports an error for a transaction whose
  messages stay applied: `Transactions.WritesCanLandUnderAnError`, and `Transactions.TxReportedOk` for
  the exact condition.
- **Gas for iterating.** Opening an iterator is charged for its first entry and so is the step past it:
  `Machines.ScanCharged`.
- **The block's gas limit.** A charge that takes the block's meter past a uint64 sets it to zero, and
  the block takes transactions again: `BlockGas.OverflowReopensBlock`. `BlockGas.FullBlockRefuses` says
  exactly which deliveries a block refuses, and `BlockGas.CountsTotalIff` when the meter shows the total.
- **PrefixEndBytes** panics on an empty prefix that is not missing: `Prefix.PrefixEndBytes`.
- **removeZeroCoins** works in the caller's array: `Coins.CompactedIsSame` says exactly when the
  caller's coins stay as they were, and `Coins.SafeAddKeepsIff` when those of an addition do;
  `Coins.SafeAddCanMutate` is one that changes them.
- **Coin types of more than 18 decimals.** The power of ten of a text's decimals goes through an
  int64. `Units.UnitRoundTrip` says for every amount exactly when it comes back from a unit,
  `Units.AllComeBackIff` that all of them do exactly up to 18 decimals, and `Units.NineteenPlaces`
  what happens at 19.
- **A plain submission** of a tax usage or a software upgrade makes no proposal, and its initial
  deposit then panics: `GovSteps.BasicUsagePanics`, and `GovSteps.SubmitPanicsIff` for the exact
  condition.
- **The end-blocker** stops the chain when a validator that did not vote has a power of 2^63 or more,
  `GovClosing.PowerCanBeTooLarge`, and when a proposal passes whose kind does not go with its
  message, `GovClosing.KindCanBeWrong`. `Gov.Keeper.EndBlocker` states exactly when it panics.
- **A raised minimal deposit** can make the refund of a proposal under vote panic:
  `GovRefunds.RaisedMinDepositPanics`, and `GovRefunds.RefundsReturnIff` for the exact condition.
- **A reset** can leave gaps among the recent versions: `Pruning.ResetIsExactIff` says exactly which.

## Model

| member | source | states |
|---|---|---|
| Iterators.MemIterator.constructor | store/memiterator.go:18-30 | the cursor holds exactly the items of the range, in their order |
| Iterators.KVIterator.SkipCacheDeletes | store/cachemergeiterator.go:163-171 | skips the leading deletions below a bound, and nothing that the merge yields |
| Iterators.KVIterator.SkipUntilExistsOrInvalid | store/cachemergeiterator.go:175-224 | ends, by the number of entries left in both cursors, on an entry of the merge or at its end, without changing what the merge still yields |
| Iterators.KVIterator.Valid | store/cachemergeiterator.go:50-53 | true exactly when something is left, and moving the cursors on the way loses nothing |
| Iterators.KVIterator.Key | store/cachemergeiterator.go:85-112 | the key of the next entry of the merge |
| Iterators.KVIterator.Value | store/cachemergeiterator.go:115-142 | the value of the next entry of the merge |
| Iterators.KVIterator.Next | store/cachemergeiterator.go:55-82 | drops exactly the next entry of the merge |
| Iterators.KVIterator.Drain | store/cachemergeiterator.go:50-224 | draining yields the whole remaining listing, each entry once |
| KVStores.MergedListing | store/cachekvstore.go:154-168 | merging the parent's listing of a range with the dirty entries of the range is the ordered listing of the overlaid map, in both directions, with deletions hidden |
| KVStores.KVStore.Iterator | store/cachekvstore.go:145-168 | over any store and range, in both directions, the iterator yields exactly the store's entries of the range, strictly ordered |
| KVStores.KVStore.DirtyItems | store/cachekvstore.go:170-192 | the dirty entries of the range, sorted, whatever order the map is walked in |
| KVStores.KVStore.Get | store/cachekvstore.go:44-58 | the value of the store's map; the map is unchanged although the cache is filled |
| KVStores.KVStore.Has | store/cachekvstore.go:71-74 | whether the store's map has the key |
| KVStores.KVStore.Set | store/cachekvstore.go:61-68 | the store's map with the key set; a cache's parent is untouched |
| KVStores.KVStore.Delete | store/cachekvstore.go:77-83 | the store's map without the key; a cache's parent is untouched |
| KVStores.KVStore.Write | store/cachekvstore.go:96-125 | the parent's map becomes the cache's map, the cache's own map stays, and its cache is empty |
| Savepoints.Execute | store/cachekvstore.go:44-134 | every run of reads, writes, CacheWrap, Write and drops on a stack of caches of any depth answers, and leaves every store of the stack, as a plain stack of maps does |
| Savepoints.Isolation | store/cachekvstore.go:132-134 | a run that stays above a level changes nothing below it, whatever is below |
| Savepoints.Transaction | store/cachekvstore.go:96-134 | a cache around a run: dropped, no trace is left; written, it is the run itself |
| Savepoints.IterateWhileWriting | store/cachekvstore.go:154-192 | an iterator is a snapshot: any reads, writes and deletions through the same store between its steps leave what it yields unchanged |
| Savepoints.DeleteWhileIterating | modules/gov/keeper.go:502-508 | deleting every key while iterating visits the whole range once and empties exactly it |
| MultiStores.CacheAll | store/cachemultistore.go:45-62 | every store of a multistore is cached on its own, and every cache holds what its store does |
| MultiStores.WriteAll | store/cachemultistore.go:104-109 | every cache is moved into its own store, and no other key's store changes |
| Prefix.PrefixRange | types/store.go:325-346 | a key lies in [p, PrefixEnd(p)) exactly when p is a prefix of it |
| Prefix.PrefixEndBytes | types/store.go:325-346 | the loop computes PrefixEnd; a missing prefix has no end; it panics exactly on an empty prefix |
| Prefix.StripUpdates | store/prefixstore.go:52-71 | setting and deleting under a prefix is setting and deleting in the stripped map |
| Prefix.StripTwice | store/prefixstore.go:73-75 | a prefix store of a prefix store is the prefix store of both prefixes together |
| Prefix.PrefixIteration | store/prefixstore.go:84-114 | iterating the parent's range and stripping keys, up to the first key without the prefix, lists exactly the range of the stripped map, in both directions |
| Iterators.KVIterator.NextOfPrefix | store/prefixstore.go:146-154 | advancing the parent and re-checking the prefix drops exactly one entry of the stripped listing |
| TxSpec.RunTxMaps | app/baseapp.go:712-881 | when every stage, where the transaction comes to it, does to what a state stands for what another stage does, so does the whole transaction, in every mode and whatever panics |
| Handlers.Execute | app/baseapp.go:623-680 | an arbitrary handler program on the stores of a multistore with their caches answers and writes as on plain maps, with the gas it consumes |
| BaseApps.RunAnteLoop | app/baseapp.go:811-858 | the loop over the ante handlers, in their cache, does what the plain description of the stage says |
| BaseApps.RunMessages | app/baseapp.go:623-680 | the loop over the messages stops at the first failure and otherwise sums them all up |
| BaseApps.RunTxOn | app/baseapp.go:712-881 | runTx on a real multistore with its nested caches, in all three modes and whatever its handlers do: a delivery is refused by a block at its gas limit; otherwise the gas wanted is the sum, as a uint64, of what the ante handlers that passed want, the gas used is what the context's last meter shows, the block is charged that up to the limit, the code is that of the last panic, failed refund or first handler that stopped it, and the stores hold nothing, the ante writes, or these and the writes of all messages, and then the refund's, as a whole or not at all |
| Transactions.MsgLoopIs | app/baseapp.go:623-680 | the messages return OK exactly when every one has a route and its handler, run after those before it, succeeds, and then leave what all of them leave |
| Transactions.TxIsAtomic | app/baseapp.go:712-881 | for any handler programs a delivered transaction leaves nothing, the ante writes, or these and the writes of all messages, the last exactly when every message succeeds; then the refund, as a whole or not at all |
| Transactions.DeliverKeeps | app/baseapp.go:712-881 | any property of the state that ante stage, messages and refund keep when they succeed survives every delivered transaction, whatever fails or panics in it |
| Transactions.TxReportedOk | app/baseapp.go:725-881 | for any handler programs the reported code is OK exactly when the block gas meter took the charge, the refund succeeded, and the messages landed or an ante handler stopped without an error |
| Transactions.WritesCanLandUnderAnError | app/baseapp.go:792-797 | a transaction with its handlers and a block gas meter whose write stays in the state while an out-of-gas code is reported |
| TxReports.AnteStageEnds | app/baseapp.go:803-858 | the ante stage in terms of its handlers: the first that panics, aborts or runs out of gas stops it with its code; the gas wanted sums up those before; every byte of the transaction then costs ten |
| TxReports.MsgLoopStops | app/baseapp.go:623-680 | the messages in terms of their handlers: the first that does not succeed stops them with its code, 6 without a route, and the meter is the one it leaves |
| TxReports.TxIs | app/baseapp.go:725-881 | what a transaction leaves, charges and reports is that of its handlers, one after the other, with every code and every uint64 sum written out, in every mode |
| Blocks.CallsDo | app/baseapp.go:540-583 | CheckTx, a simulation and DeliverTx each work on their own state in their own mode: a check runs neither messages nor refund, a simulation changes nothing |
| BlockGas.MeterCounts | app/baseapp.go:792-797 | over any calls inside a block its meter counts exactly what deliveries are charged, and starts again at zero when a sum is not a uint64 |
| BlockGas.CountsTotalIff | types/gas.go:86-105 | the meter shows the total of all charges exactly when that is a uint64 |
| BlockGas.FullBlockRefuses | app/baseapp.go:722-726 | in every block with a gas limit, after any calls, a delivery is refused out of gas and without a trace exactly when what is counted for those before it has come to the limit; otherwise it is run and charged |
| BlockGas.FullByTotal | app/baseapp.go:722-726 | so when the deliveries before it were charged the limit or more together, and that is a uint64 |
| BlockGas.TotalFits | types/gas.go:86-105 | it is one if no charge comes within the limit of 2^64 |
| BlockGas.OverflowReopensBlock | types/gas.go:86-94 | two transactions that are charged 1 and 2^64 - 1 in a block with the limit 10 leave it an empty meter |
| BaseApps.BaseApp.Handle | app/baseapp.go:492-946 | every ABCI call changes exactly one of check state, block state and committed state, and reports the described result; BeginBlock starts the block at the committed state with an empty meter, limited exactly if the maximal gas is positive, and then by it; Commit makes the block state the committed and the check state; a simulation changes nothing |
| BaseApps.Play | app/baseapp.go:492-946 | the whole life of an application over loaded trees, through any legal ABCI calls on real stores: its three states, its block gas and all its results are those of the plain description |
| Blocks.ChecksDoNotInterfere | app/baseapp.go:609-620 | in every run, committed state, block state and block gas depend on the consensus events alone, whatever checks and simulations happen in between |
| Auth.GetSigners | modules/auth/stdtx.go:86-98 | the distinct signers of all messages in order of first occurrence |
| Auth.DedupIsDistinct | modules/auth/stdtx.go:86-98 | no signer twice, and none lost |
| Auth.SignersByAppearance | modules/auth/stdtx.go:86-98 | the signers met up to any point in the messages are the first ones |
| Auth.ValidateBasic | modules/auth/stdtx.go:39-66 | exactly the transactions that pass the stateless checks |
| Auth.AuthKeepers.AnteHandler | modules/auth/ante.go:27-118 | passes exactly an authorized transaction: non-negative fee, as many signatures as signers, at most 7 keys and 100 memo characters, every signer known and with its number and sequence, the fee affordable, and every signature accepted by the account's key, or its own at the signer's address, of one of the two supported kinds; panics exactly when the pool is full or the first bad signature has an unsupported key; and the accounts it leaves, field by field |
| Auth.AntePassesExactly | modules/auth/ante.go:75-182 | exactly which transactions the ante handler lets pass, and on which it panics, in terms of the accounts, the pool and the signatures |
| Auth.AnteAuthenticates | modules/auth/ante.go:91-182 | after it the first signer has paid the fee into the pool, every signer has the next sequence and the key it signed with, and nothing else is changed |
| Auth.AuthKeepers.ValidateAccNumAndSequence | modules/auth/ante.go:131-155 | true exactly when every signer's number and sequence match |
| Auth.AuthKeepers.FeeRefund | modules/auth/feeauth.go:54-97 | the payer gets fee * (wanted - used) / wanted back from the pool, in the account as the ante handler left it; it panics exactly when the product or the balance overflows, the payer is gone or the pool has too little |
| Fees.KeptShare | modules/auth/feeauth.go:81-83 | what is kept of a fee F for U of W gas is F*U/W rounded up |
| Fees.FailedAnteIsFree | app/baseapp.go:799-858 | a delivery whose ante stage fails changes nothing |
| Fees.PoolGrowth | modules/auth/feeauth.go:54-97 | the pool grows by exactly the rounded-up used share if the messages return, and by the whole fee if one panics, whatever the block gas meter does |
| Fees.DeliverPaysBack | modules/auth/feeauth.go:54-97 | the exact accounts and pool after a delivery whose ante stage passed, from those before its refund |
| Fees.OrdinaryFeesFit | modules/auth/feeauth.go:81-83 | no fee below 2^192 overflows in the refund |
| Fees.MulFitsIff | types/int.go:221-232 | a product fits exactly when it has at most 255 bits and its factors at most 256 together |
| Fees.AnteConserves | modules/auth/ante.go:91-110 | all balances and the pool together are unchanged by the ante stage |
| Fees.DeliverConserves | modules/auth/feekeeper.go:55-70 | a whole delivery conserves all balances and the pool together, if its messages do where it comes to them |
| Fees.AnteSequences | modules/auth/ante.go:158-182 | a passing ante handler raises every signer's sequence by exactly one and nobody else's |
| Fees.RunGrows | modules/auth/ante.go:75-116 | in every run without wrap-around no sequence goes down and no account disappears |
| Fees.NoReplay | modules/auth/ante.go:131-155 | a transaction whose ante writes were applied never passes the ante handler again, whatever is delivered in between |
| FeesOnStores.DeliverImplements | app/baseapp.go:712-881 | if the handler programs of a transaction, from the stores they start at, do to accounts and pool what its delivery describes, the whole delivery through the runner does, with the same block gas and result |
| FeesOnStores.DeliverOnStores | app/baseapp.go:712-881 | then on a real multistore: money is conserved if the messages conserve it, a failed ante stage is free, and otherwise the pool has grown by exactly the price, whatever failed or panicked |
| Machines.GasDecides | types/gas.go:86-105 | a handler does what it does with all the gas it needs exactly when its meter has that much; otherwise it stops out of gas, past the limit, or by the overflow panic |
| Machines.ChargingIsFaithful | store/gaskvstore.go:36-60 | stores that charge gas before and after every access change nothing but the gas that is needed |
| Machines.ReadCharged | store/gaskvstore.go:36-44 | a read costs 10 and 1 for every byte found |
| Machines.PutCharged | store/gaskvstore.go:47-52 | a write costs 10 and 10 for every byte |
| Machines.RemoveCharged | store/gaskvstore.go:61-65 | a deletion costs 10 |
| Machines.ScanCharged | store/gaskvstore.go:107-184 | walking a range to its end costs 15 and 1 for every byte of the value for every entry, and the same again for the first |
| Machines.EndsInTime | app/baseapp.go:623-680 | for a handler that comes closer to its end with every answer, a large enough bound on its steps makes no difference |
| AuthPrograms.AnteRun | modules/auth/ante.go:27-118 | the ante handler as a program of reads, writes and charges on the account and fee stores, from any stores and for any number of signers: an authorized transaction leaves the stores authenticated, its gas wanted and the payer's new account in the context; one that cannot be processed panics; any other is refused and leaves nothing in the context |
| FeePrograms.PreRuns | modules/auth/feeauth.go:37-51 | the fee pre-processing as a program on the fee and parameter stores gives exactly the described verdict, code 19 for fees in another token, and charges its three reads |
| FeePrograms.RefundRuns | modules/auth/feeauth.go:54-97 | the refund as a program on the stores, from what the ante handler left in the context, pays back and draws from the pool, returns or panics exactly as described |
| FeeHandlers.AnteEndsInTime | modules/auth/ante.go:75-116 | the bound on the ante program's steps never cuts it off |
| FeeHandlers.AntePassesIff | modules/auth/ante.go:27-118 | for any stores and any number of signers: the ante stage passes exactly when the transaction is authorized and its gas covers the handler and ten for every byte; then the gas wanted is the transaction's, the accounts are authenticated, and that gas is on the meter |
| AnteCosts.AnteCostIs | modules/auth/ante.go:75-182 | the gas of an authorized transaction's ante handler, for any number of signers: every account's read by its length, the pool's read and write, 59 or 100 for each signature by its kind, and every account's write by its new length |
| FeeHandlers.PriceVerdictIs | modules/auth/feeauth.go:37-51 | but at height zero, a gas of zero or past an int64 is refused with code 18 and a fee below the threshold for every unit of gas with code 17; a negative fee panics |
| FeeHandlers.LandsIff | app/baseapp.go:712-881 | a delivered transaction takes effect exactly when the block has gas left and it is well-formed, pays the price, is authorized and has the gas for its ante stage |
| FeeHandlers.NothingLeft | app/baseapp.go:712-881 | one that does not leaves nothing in any store |
| FeeHandlers.ForgedIsRefused | modules/auth/ante.go:158-182 | a transaction with a signature that its signer's key does not accept is not authorized |
| FeeHandlers.GasIsReported | app/baseapp.go:763-764 | one that takes effect reports the gas it wants, and as used what is on the meter when its messages end |
| FeeHandlers.HandlersImplement | modules/auth/feeauth.go:54-97 | pre-processing, ante handler and refund implement the described delivery, from any stores with the fee settings and for any messages that leave the fee setting in its store |
| FeeHandlers.DeliverOffer | app/baseapp.go:712-881 | a transaction with these handlers and any messages, on a real multistore: if it does not take effect, or a signature is not one of its signer's key, no store changes; otherwise the result has its gas and what its messages' meter shows, the unused share of the fee is paid back, money is conserved if the messages conserve it, and if they leave the pool alone, it has grown by exactly the price, whatever failed or panicked |
| FeeRuns.LandsOnce | modules/auth/ante.go:131-155 | in every run on the stores, a signed transaction that took effect never takes effect again, in whatever block and with whatever gas and messages it is offered |
| FeeRuns.DeliverAll | app/baseapp.go:712-881 | any number of deliveries on real stores with their caches is such a run, with the results of the plain description, and repeats no transaction that took effect |
| FeeExample.OfferLands | modules/auth/feeauth.go:106-123 | an encoding, stores and a transaction with one signer, whose ante handler costs 270, that meet every hypothesis of these results and take effect |
| Decimals.ChopPrecisionAndRound | types/decimal.go:306-337 | the in-place rounding, for every integer, leaves the rounded quotient and no sign lost |
| Decimals.RoundedIsNearestEven | types/decimal.go:306-337 | the result is the nearest integer to d/10^10, the even one of two |
| Decimals.NearestEvenIsUnique | types/decimal.go:306-337 | there is only one such integer |
| Decimals.RoundedIsOdd | types/decimal.go:306-337 | rounding -d gives minus the rounding of d |
| Decimals.MulIsCorrectlyRounded | types/decimal.go:210-219 | the product is the exact product, correctly rounded |
| Decimals.MulReturnsIff | types/decimal.go:210-219 | a product panics exactly when, rounded, it has more than 289 bits |
| Decimals.QuoIsClose | types/decimal.go:231-244 | the quotient is within 1/2 + 10^-10 of a unit in the last place of the exact one, for every sign |
| Decimals.QuoReturnsIff | types/decimal.go:231-244 | a quotient is the truncated one of twenty places, rounded to ten, and panics exactly when that has more than 289 bits |
| Decimals.QuoIsCorrectlyRounded | types/decimal.go:231-244 | for operands of every sign, the quotient is correctly rounded except exactly where truncating made a tie to an even digit of what is none |
| Decimals.QuoCanMissTheNearest | types/decimal.go:231-244 | a positive and a negative quotient that are not correctly rounded |
| Decimals.RoundedAtMost | types/decimal.go:306-337 | a number is rounded to at most k exactly when it lies below k and a half, or on it with k even |
| Decimals.RoundIntReturnsIff | types/decimal.go:354-356 | the rounded integer, or a panic exactly when it has more than 255 bits |
| Decimals.EvaluateBig | types/rational.go:175-202 | the rational's own rounding gives the nearest integer, ties to even, for every sign |
| Decimals.RoundingsAgree | types/rational.go:175-202 | both roundings give the same integer |
| DecText.String | types/decimal.go:257-290 | the filled buffer is the text with the dot before the last ten digits |
| DecText.ParsePoint | types/decimal.go:126-173 | digits, a dot and up to ten digits are read as the number they write |
| DecText.RoundTripIff | types/decimal.go:126-173 | reading what was written gives the decimal back exactly when it is not strictly between -1 and 0 |
| DecText.SmallNegativeIsUnreadable | types/decimal.go:268-288 | between -1 and 0 the text cannot be read at all |
| Units.DecimalStringExact | types/rational.go:159-172 | a rational that needs no rounding is written exactly |
| Units.RoundingIsNearest | types/rational.go:159-172 | any other is written as the nearest number of units of the last place, halves rounded up |
| Units.RatOfParts | types/rational.go:40-107 | digits around a dot are read as a number over a power of ten exactly if they have not more decimals than allowed, and are refused otherwise |
| Units.ReadText | types/rational.go:40-107 | a written text is read as its digits over the power of ten of its decimals, which went through an int64 |
| Units.UnitRoundTrip | types/coin_type.go:83-116 | an amount below 2^255 comes back from another unit exactly when both scale factors fit 255 bits and the smallest unit has at most 18 decimals, or the places of the amount beyond the 18th are zeros |
| Units.AllComeBackIff | types/coin_type.go:83-116 | all amounts come back from all units exactly when the smallest unit has at most 18 decimals |
| Units.NineteenPlaces | types/rational.go:56-58 | with 19 decimals the denominator is negative, and the smallest amount is refused on its way back |
| Coins.AmountOfIsAmount | types/coin.go:452-476 | binary search finds what a search from the front finds |
| Coins.SafeAdd | types/coin.go:252-299 | the two-index loop computes the merge of the sets; a panic leaves both arrays, and otherwise each holds its part that was merged as it was, and of the rest the coins that are not zero followed by copies of the last one |
| Coins.SafeAddKeepsIff | types/coin.go:252-299 | an addition leaves either array as it was exactly when nothing but copies of it follows a zero coin in its part that was not merged, so always without zero coins |
| Coins.SafeAddCanMutate | types/coin.go:265-270 | coins that an addition changes in the caller's array |
| Coins.MergedIsSorted | types/coin.go:252-299 | the sum is strictly sorted and has no zero coin |
| Coins.MergedAmount | types/coin.go:252-299 | the sum holds, of every denomination, what both sets hold |
| Coins.MergedPanicsIff | types/coin.go:92-98 | adding panics exactly when some denomination's sum exceeds 255 bits |
| Coins.SameAmounts | types/coin.go:429-444 | sorted sets without zeros that hold the same amounts are equal |
| Coins.RemoveZeroCoins | types/coin.go:531-544 | in place: the result is the order-preserving filter, the rest of the array is copies of the last coin |
| Coins.NonZeroIs | types/coin.go:531-544 | the filter keeps exactly the coins that are not zero, sorted |
| Coins.CompactedIsSame | types/coin.go:531-544 | for coins in any order: the caller's array is unchanged exactly when nothing but copies of it follows a zero coin |
| Coins.SortedSteady | types/coin.go:531-544 | for sorted coins that is: no coin but the last is zero |
| Coins.SafeSubIs | types/coin.go:320-323 | sets that are not negative never overflow in a subtraction, which holds every difference, and has no negative coin exactly when one set covers the other |
| Coins.IsAllGTE | types/coin.go:347-363 | true exactly when no coin of the difference is negative |
| Coins.IsValidV0 | types/coin.go:643-670 | true exactly for strictly sorted, positive coins |
| Bank.ValidateSend | modules/bank/msgs.go:28-56 | passes exactly the transfers whose parts are valid and whose inputs and outputs agree in every denomination, unless a sum overflows; panics exactly when the sum of valid first parts does |
| Bank.Keeper.SubtractCoins | modules/bank/keeper.go:269-279 | succeeds exactly when the account has enough of everything; only that account changes, by exactly the coins |
| Bank.Keeper.AddCoins | modules/bank/keeper.go:282-292 | panics exactly on overflow; otherwise only that account changes, by exactly the coins |
| Bank.Keeper.InputOutputCoins | modules/bank/keeper.go:328-360 | fails exactly when an account has less than all its inputs together, otherwise panics exactly when one would end with more than 255 bits; otherwise every account ends with what it had, less its inputs, plus its outputs, for repeated and overlapping addresses; balanced transfers conserve every denomination |
| Bank.Keeper.BurnCoins | modules/bank/keeper.go:102-110 | balance and loosen counter drop and the burned counter rises by the same coins; exactly when it fails or panics |
| GovRefunds.RefundBounds | modules/gov/keeper.go:519-523 | a refund is between nothing and the deposit and within a half of its exact share |
| GovRefunds.RefundReturnsIff | modules/gov/keeper.go:519-523 | a refund does not panic exactly when its share fits and exceeds the deposit by no more than a half |
| GovRefunds.BurnedAmount | modules/gov/keeper.go:511-530 | for n deposits of sum D, the burned rest differs from a fifth of the minimal deposit by at most n/2 + D*(1/2 + 10^-10)*10^-10 |
| GovRefunds.RefundsReturnIff | modules/gov/keeper.go:511-523 | for any deposits and any minimal deposit: the whole refund returns exactly when the deposits are not zero together, and a fifth of the minimal deposit over their sum, rounded, exceeds one by at most half a unit of every deposit |
| GovRefunds.RefundsReturnBelow | modules/gov/keeper.go:511-523 | it returns as long as the minimal deposit is at most five times the deposits |
| GovRefunds.RaisedMinDepositPanics | modules/gov/keeper.go:511-523 | a deposit and a minimal deposit for which it panics |
| GovSpec.DepositSurplus | modules/gov/keeper.go:445-487 | a deposit changes by how much escrow exceeds the deposits only when escrow itself deposits |
| GovSpec.DepositNeverPanics | modules/gov/keeper.go:445-487 | in a state with the invariant no deposit overflows |
| GovSpec.DepositedKeeps | modules/gov/keeper.go:445-487 | a deposit keeps totals, records, queues, snapshots and cover, also when it starts the vote |
| GovSteps.MinInitialDepositIs | modules/gov/keeper.go:432-442 | the least initial deposit is 0.3 of the minimal deposit, rounded to the nearest, ties to even |
| GovSteps.SubmittedKeeps | modules/gov/handler.go:33-87 | a submission keeps the whole invariant, with the slot naming a critical proposal |
| GovSteps.SubmitPanicsIff | modules/gov/handler.go:33-62 | a submission panics exactly when it is a plain message for a tax usage or a software upgrade that has passed the quota and the other checks |
| GovSteps.BasicUsagePanics | modules/gov/govparams_util.go:34-36 | such a submission, in any state and with any deposit |
| GovSteps.RefundsOf | modules/gov/keeper.go:496-535 | the rate of a proposal under vote is defined, every refund is at most its deposit, and the rest is near a fifth of the minimal deposit |
| GovSteps.SettledSettles | modules/gov/keeper.go:496-555 | refunding or burning takes exactly the proposal's deposits out of escrow, takes nothing from anybody else, and conserves balances plus burned and loosen plus burned |
| GovSteps.NextKeeps | modules/gov/handler.go:13-302 | every step keeps the invariant |
| GovSteps.RunKeeps | modules/gov/handler.go:13-302 | in every run of submissions, deposits, votes, settlements and outside transfers: totals equal the sum of the records, escrow covers all deposits, each proposal is in exactly its queue under its end time, snapshots exist exactly for votes under way, and the slot names the only open critical proposal |
| GovSteps.VotesStand | modules/gov/keeper.go:350-380 | in no run is a vote changed or deleted, not even once its proposal is closed |
| GovSteps.VotesAreCast | modules/gov/keeper.go:350-380 | every vote found after a run was there before or was cast in it by that voter, a validator, as their first on that proposal, while it was under vote |
| GovSteps.RunSnapshots | modules/gov/keeper.go:748-758 | in every run no snapshot names a validator twice, if the bonded validators are listed once each |
| GovSteps.SettleAllRuns | modules/gov/handler.go:232-300 | the end-blocker's settlements are steps of a run, so what holds in every run holds after it |
| GovSteps.GenesisKeeps | modules/gov/keeper.go:289-298 | the invariant holds at genesis |
| GovSteps.SettleAllIs | modules/gov/handler.go:232-300 | settling any distinct proposals removes exactly their entries, snapshots and deposits, leaves all other proposals alone, and keeps escrow's surplus |
| GovSteps.SettleAllEnds | modules/gov/handler.go:232-282 | a dropped proposal is gone; a closed one is the same but Passed if its result is Pass and Rejected otherwise |
| GovSteps.EndBlockIs | modules/gov/handler.go:222-302 | the end of a block at a time removes exactly the entries with an end time up to it, each proposal once, and their deposits from escrow |
| GovFacts.SubmitDoneIff | modules/gov/keeper.go:432-442 | a submission is done exactly when it is admitted, makes a proposal, no critical one is open if it is critical, the deposit is at least three tenths of the minimal one, rounded to the nearest, ties to even, and the proposer has it; it panics exactly when it is admitted and makes none |
| GovFacts.DepositDoneIff | modules/gov/keeper.go:445-487 | a deposit is done exactly when the proposal is in its deposit period and the depositor has the amount; only escrow itself can make it panic |
| GovFacts.SubmittedIs | modules/gov/handler.go:33-87 | what a submission leaves: a proposal of that form and kind whose deposit period ends that of its kind after now, with its deposit, under vote if it reaches the minimal deposit, and in the slot if critical |
| GovFacts.DepositedIs | modules/gov/keeper.go:445-487 | what a deposit leaves: the amount moved to escrow and on record, and, if the minimal deposit of the kind is reached, a vote that ends the voting period after now, by the validators bonded now |
| GovFacts.ClosedIs | modules/gov/handler.go:254-300 | what closing leaves: Passed if the result is Pass and Rejected otherwise; a veto burns all deposits, otherwise every depositor gets a part back and about a fifth of the minimal deposit is burned; queue entry, snapshot and slot are cleared |
| GovFacts.DroppedIs | modules/gov/handler.go:234-250 | a dropped proposal is gone and all its deposits are burned |
| GovRuns.RunFates | modules/gov/handler.go:222-302 | in every run a proposal has passed exactly if a step closed it with Pass while it was under vote, is rejected exactly if one closed it otherwise, and is gone exactly if one dropped it in its deposit period; and each stays so |
| GovRuns.RunBegins | modules/gov/keeper.go:205-345 | in every run from genesis a proposal's deposit period ends its kind's deposit period after its submission, its vote the voting period after the step that began it, its snapshot holds the validators bonded then, and while it waits it has less than the minimal deposit |
| GovClosing.ClosableIff | modules/gov/handler.go:254-300 | exactly what can be closed: the bonded powers add up, what passes has the message of its kind, and the rounded power of everyone slashed is an int64 |
| Gov.Keeper.AddDeposit | modules/gov/keeper.go:445-487 | exactly when it is done or panics, written out, and the exact proposal, queues, snapshot, record and balances after it |
| Gov.Keeper.SubmitProposal | modules/gov/handler.go:33-179 | for each of the three messages: exactly when it is done or panics, in terms of the parameters, the open proposals and the proposer's balance, and the exact state after it |
| Gov.Keeper.AddVote | modules/gov/keeper.go:350-380 | succeeds exactly for a validator without a vote on a proposal under vote; then exactly that voter gains the option there, every other vote of everyone and everything but the votes stays, and a failure changes nothing |
| Gov.Keeper.Deliver | modules/gov/handler.go:13-31 | the handlers under the transaction runner are the steps of a run that keeps the invariant, and panic exactly on a plain submission that makes no proposal |
| Gov.Keeper.DeleteDeposits | modules/gov/keeper.go:538-555 | the loop burns all of the proposal's records and never panics |
| Gov.Keeper.TakeDeposits | modules/gov/keeper.go:496-508 | collecting while deleting panics exactly when the sum leaves 255 bits, and otherwise gives all records and their sum and leaves exactly the others |
| Gov.Keeper.RefundDeposits | modules/gov/keeper.go:496-535 | from any state in which escrow has the deposits, and for any minimal deposit: it goes through exactly when none of the refund's arithmetic panics, and then every depositor has the rounded refund and the rest is burned |
| Gov.Keeper.DropProposal | modules/gov/handler.go:234-250 | the proposal is gone, exactly its deposits are burned, and its entry and slot are cleared |
| Gov.Keeper.CloseProposal | modules/gov/handler.go:254-300 | it panics exactly when what passed cannot be executed as its kind demands or the power of someone slashed exceeds an int64; otherwise the proposal is Passed if the tally found Pass and Rejected if not, a veto has burned its deposits and anything else refunded them in part, and the exact calls of Slash |
| GovClosing.SlashAbsent | modules/gov/handler.go:285-296 | the loop over the snapshot panics exactly when the rounded power of a bonded validator without a vote exceeds an int64, and otherwise slashes each of these in order |
| GovClosing.PenaltiesAre | modules/gov/handler.go:285-296 | exactly the bonded validators of the snapshot that did not vote are slashed, with their rounded powers |
| GovClosing.AllPenaltiesOnce | modules/gov/handler.go:285-296 | nobody is slashed twice for one proposal |
| GovClosing.PowerCanBeTooLarge | types/decimal.go:345-351 | a power that can be tallied and that the slashing of its absent owner cannot round |
| GovClosing.KindCanBeWrong | modules/gov/execute.go:8-20 | a tax usage message with the kind of a parameter change comes under vote, and cannot be executed if it passes |
| Gov.Keeper.EndBlocker | modules/gov/handler.go:222-302 | panics exactly when some proposal due cannot be closed: its bonded powers do not add up to a decimal, it passes and cannot be executed, or the power of someone slashed exceeds an int64; otherwise the tags name exactly the proposals due, each once, with the result that the tally finds, every proposal whose deposit period is over is gone, every one whose vote is over is Passed if its tally finds Pass and Rejected otherwise, all others are as they were, the new state is that of a run that settles them, both queues keep exactly the later entries, and exactly the bonded validators of their snapshots without a vote are handed to Slash, once each |
| GovKeys.SubspaceIsOneProposal | modules/gov/keeper_keys.go:28-45 | the range of a proposal's deposits or votes holds its own records and no other proposal's |
| GovKeys.RecordKeyIsInjective | modules/gov/keeper_keys.go:28-35 | different proposals or addresses have different keys |
| GovKeys.FormatIs | types/utils.go:48-54 | year, month, day, hour, minute, second and nanosecond, zero-padded, with their separators |
| GovKeys.FormatOrder | types/utils.go:48-54 | up to the year 9999 formatted times sort as the times do, and have one length |
| GovKeys.FormatSortsIff | types/utils.go:48-54 | the format sorts all times up to a year exactly when the year is at most 9999 |
| GovKeys.QueueRangeIsDue | modules/gov/keeper.go:561-584 | the iterated range of a queue holds exactly the entries whose end time has come |
| GovKeys.QueueKeyOrder | modules/gov/keeper_keys.go:56-79 | a queue's keys sort by end time, then by proposal, and are distinct |
| GovKeys.QueuesAreApart | modules/gov/keeper_keys.go:18-19 | neither queue's keys are in the other's range |
| GovStore.SetDeposit | modules/gov/keeper.go:426-430 | one write to the byte store replaces the depositor's record and leaves all others |
| GovStore.RangeDeleted | modules/gov/keeper.go:490-508 | a byte store without a proposal's range holds exactly the other proposals' records |
| GovStore.TakeDeposits | modules/gov/keeper.go:496-508 | on the byte store, through its caches: iterating over a proposal's range while deleting yields each of its records once and leaves exactly the others |
| GovStore.DueProposals | modules/gov/keeper.go:561-584 | on the byte store: the iterator of a queue yields exactly the proposals whose time has come, each once, by time and then by number, whatever is written and deleted between its steps |
| GovStore.BurnDeposits | modules/gov/keeper.go:538-555 | on the byte store: while the iterator is open every record is burned and deleted; exactly the proposal's deposits leave escrow and the loosen counter, and exactly the other proposals' records are left |
| Tally.BucketsAddUp | modules/gov/tally.go:44-57 | the four buckets add up to the power that voted |
| Tally.CountedBounds | modules/gov/tally.go:44-57 | no bucket exceeds the power that voted, nor that the bonded power |
| Tally.Tally | modules/gov/tally.go:22-90 | the result is a function of who voted what, in whatever order; of all its additions only that of the bonded powers can overflow, and that is the only panic |
| Tally.JudgeIs | modules/gov/tally.go:69-89 | nothing is divided by zero, and exactly when a proposal passes or is vetoed |
| Tally.TallyFinds | modules/gov/tally.go:22-90 | what the tally finds in terms of the powers behind Yes, Abstain, No and NoWithVeto and the bonded power: Pass with enough turnout, few enough vetoes and enough Yes, RejectVeto with enough turnout and too many vetoes, each a rounded share of all votes, and Reject otherwise |
| Tally.PassMeans | modules/gov/tally.go:69-89 | what passes has more than the threshold of all votes exactly, not only after rounding, and meets quorum and veto up to the rounding error |
| Tally.QuorumDiffersIff | modules/gov/tally.go:73-76 | the turnout test differs from the exact quorum exactly on a shortfall that is rounded away |
| Tally.VetoDiffersIff | modules/gov/tally.go:78-81 | the veto test differs from the exact one exactly on an excess that is rounded away |
| Tally.ThresholdDiffersIff | modules/gov/tally.go:83-86 | the last test differs from the described one exactly on a majority of those not abstaining that is, rounded, none of all votes |
| Tally.JudgeAgreesIff | modules/gov/tally.go:68-89 | for all votes, exactly when the verdict is the described one, as inequalities over the powers |
| Tally.AbstentionsCount | modules/gov/tally.go:83-86 | votes that would pass among those not abstaining and are rejected |
| Tally.QuorumCanBeShort | modules/gov/tally.go:73-76 | votes that pass although they fall short of the quorum |
| Tally.VetoCanBeMissed | modules/gov/tally.go:78-81 | votes that pass although more than the veto limit veto |
| Pruning.IavlStore.Commit | store/iavlstore.go:76-107 | saves a version and releases at most the one that left the window, unless it is the first or a waypoint |
| Pruning.CommitsAreExact | store/iavlstore.go:76-107 | after any number of commits, under any setting, the versions are exactly the first, the waypoints and the last numRecent + 1 |
| Pruning.RunSurvives | store/iavlstore.go:76-107 | in every run of commits and resets the first version and all waypoints survive |
| Pruning.ResetIsExactIff | store/iavlstore.go:24-38 | after n commits and a reset to any kept version, exactly when the versions are again those that a tree of that height keeps |
| Pruning.ResetLeavesGap | store/iavlstore.go:24-38 | after a reset the recent versions are not all there |
| Pruning.ReplayHeightIsKept | app/app.go:177-187 | the height to replay from is kept, at or below the target, and less than 10000 blocks away |
| Pruning.IavlStore.ResetOrReplay | app/app.go:106-164 | resetting to any height from 1 on succeeds and loads a kept version at most 9999 blocks below |

## Left out

- Nil keys and values, on which the store panics, and decimals without a value: byte strings and numbers here are never nil.
- Mutexes, tracing store wrappers, and the iavl iterator's goroutine.
- Machines.ScanCharged: a range is walked to its end and charged at once, not entry by entry; no handler of the auth module scans.
- A prefix store with an empty prefix: its end bound panics, so prefixes are not empty here.
- A prefix store whose parent is written by others while it is used: the prefix store is the only writer while it is in use.
- IAVL internals, Merkle proofs, amino and big.Int: a tree is an ordered map with a set of versions, encodings are injective, and integers are unbounded with the source's explicit bit limits.
- Handlers.Execute: a handler is a strategy with a bound on its steps; the bound is arbitrary, but handlers that never end are not modelled.
- BaseApps.BaseApp.Handle: InitChain and panics inside the block hooks are not modelled; the fee pre-processing program only reads, as the source's does.
- FeesOnStores.DeliverOnStores: that the handler programs implement their descriptions is a hypothesis here; FeeHandlers.HandlersImplement proves it of the auth module's handlers.
- FeeHandlers.DeliverOffer: the fee setting, which names the native token, and the fee parameters are stored at the start, messages that land leave the fee setting there, the gas of a transaction is a uint64, the context's meter has room for the pre-processing's reads, and the encodings of accounts and amounts come back; bytes that are not an encoding are not modelled. FeeExample.OfferLands shows that all of this can be had at once.
- FeePrograms.RefundRuns: the refund's charges to its own unlimited meter, which is thrown away, are not modelled; they could only matter beyond a uint64.
- FeeRuns.LandsOnce: messages that land change no sequence and remove no account, and no sequence is about to wrap around.
- Auth.AuthKeepers.AnteHandler: it works on decoded accounts, without gas, which AuthPrograms.AnteRun and FeeHandlers.AntePassesIff add; its errors all have one code, because the code does not decide what it writes.
- AuthPrograms.AnteRun: every refusal has the code of an unauthorized one, for the same reason.
- Auth.AuthKeepers.FeeRefund: gas beyond 2^63, which only height 0 lets through, is converted to a negative int64 in the source (modules/auth/feeauth.go:83); the conversion is not modelled.
- The float-based gas pricing and the value a meter holds after an overflow beyond what the source stores.
- Signature verification and address derivation: a predicate on keys; multi-signature keys only count.
- Fees in several denominations: fees and deposits are in the one native denomination, as the refund code assumes.
- Gov.Keeper.CloseProposal: what Execute and Slash do, and panics inside them, are not modelled; which of them are called, with what, and the panics before are. Their effects on balances are outside steps of a run, and the powers at each tally are an input of the end-blocker; executing a proposal and slashing one validator leave the powers of the others.
- GovSteps.RunKeeps: parameter changes while a run is under way; the minimal deposits, periods and thresholds are fixed, since GovRefunds.RaisedMinDepositPanics shows that a raise can stop the chain. Gov.Keeper.RefundDeposits is stated for any minimal deposit.
- The critical slot stands for CriticalMaxNum = 1, the only value that the parameter check admits (modules/gov/params.go:510).
- The Important and Normal quotas and the guardian, trustee, version and parameter checks: one input of a submission.
- Proposal numbers that wrap around, and a store without an initial proposal number.
- GovKeys.QueueRangeIsDue: times are UTC calendar fields; that the calendar orders them as instants is a hypothesis of GovStore.DueProposals.
- Tally.Tally: bonded validators and their powers are an input, taken at the tally; delegations do not vote in the source either.
- Coins.SafeAdd: sets are arrays of their own; that a set is part of a longer array is not modelled.
- Coins.IsAllGTE: stated for sets that are sorted and not negative, as the source's comments demand of coin sets.
- Bank.Keeper.SubtractCoins: the gas that it, Bank.Keeper.AddCoins and Bank.Keeper.InputOutputCoins consume first (modules/bank/keeper.go:270, 283, 313), which can panic out of gas, is not modelled; a handler program consumes gas as an action of its own.
- Sort and IsEqual on unsorted sets: the totals that are compared are already sorted.
- Units.UnitRoundTrip: the regular expression that splits a coin's text, and the look-up of a unit by its name, are not modelled; a coin's text is its amount and its unit.
- Pruning.IavlStore.ResetOrReplay: the confirmation prompt and reloading another protocol version are not modelled.
- Lists and queues in the store package, the CLI, REST, keys, metrics, staking, slashing, minting, distribution, coinswap, HTLC and the later protocol versions.
