# IotaBee bridge validator: a verified model

The repository is one validator of a bridge between IOTA/Shimmer (a ledger of unspent outputs) and contracts
on EVM chains. Validators watch both sides, turn events into orders, and either send the counter-transaction
themselves or propose it to a group that signs jointly. This project models the parts of that program where
money can be lost, sent twice or stuck, and proves what they keep.

`dafny verify dfyconfig.toml` checks the whole project. Each file holds one module of the same name.

## What is modelled

**Building a transaction on the ledger** (`Ledger`, `TxBuilder`, `Selection`, `Collector`, `NativeBooks`,
`IotaSend`, `InputRules`, `ShimmerSend`). The indexer's answer is an arbitrary list of pages. The four input selectors of the
source are one loop with four settings (`Selection.Selector`): which currency, how many inputs, which sum, and
whether each output's metadata is queried. `Collector` is that loop, imperative, appending to the builder.
`break` leaves one page only; the jump to `GetUtxos` forgets `sum` and `count` but not the inputs that already
are in the builder. `uint64` arithmetic is written out with `Ledger.Wrap` (remainder modulo 2^64), and exact
statements say that the sums concerned stay below 2^64, as they do when the supply does. Storage deposits are a
function of an output's shape, since amounts have a fixed width.

**The order protocol** (`SwapTable`, `NodeVars`, `OrderProtocol`, `OrderSafety`, `NodeSafety`, `QueueSafety`, `OrderHandlers`,
`HandlerRuns`, `IotaRecheck`, `RecheckRuns`). `OrderProtocol` is a machine of any number of nodes, each with any number of goroutines, over
one `swap_order` table with a unique key on `txid`. A step is a mutex-guarded method, a statement or a
transaction of the database (done, done but reported as failed, or not done), a send, a tick, a clock advance,
or a crash with restart. `OrderSafety`, `NodeSafety` and `QueueSafety` prove invariants over every run. `OrderHandlers` and
`IotaRecheck` hold the handlers and the recheck loop as methods on shared objects; `HandlerIsRun` (for events and
for error records) and `RecheckIsRun` (with pushes in between) show that what these methods do is a run of the
machine, and both sides use the same functions (`CheckDealt`, `Inserted`, `Deleted`, `Unexpired`) for the atomic
effects.

**EVM rechecks and replacement transactions** (`EvmRecheck`, `Replacement`). The queue of three parallel slices
refines a sequence of triples; the sweep runs with other goroutines pushing between `Top` and the action.
`Replacement` gives each queue slot the history of the transactions submitted for it, and shows that the sweep is
a run of its turns and sends.

**Codecs, proposals and votes** (`Bytes`, `EvmCalldata`, `Agreement`, `Ballots`, `Accept`). The calldata that the bridge
writes against the checks that read it; the essence that one validator proposes against the check of all
others; the acceptance loop over whole runs.

**Scanners** (`Scanner`, `ErrorListener`). One loop for both scanners: a cap and no `Removed` check for the EVM
events, no cap and a `Removed` check for the error records. `ErrorListener` adds the listener that starts the
error-record scanner anew after a log of the wrong size.

**Password encryption** (`Aes`). Padding (section 6.3 of RFC 5652), CBC in place (section 6.2 of NIST SP 800-38A)
and hex over an invertible block function.

Answers of nodes, databases, keystores and clocks are parameters. Hashes, the EIP-55 spelling of addresses, the
signing message and the block cipher are function parameters; what is assumed of them is in the `requires` that
uses it: a transaction hash names its transaction (`Replacement.NamesTransactions`), spelled addresses readable,
the wrap and send selectors different, the block function invertible and length-preserving.

## What turned out differently

* `getUtxosCount` is declared after the label it is meant to guard, so every restart sets it back to 0: the
  branch that gives up above 6 is never taken (`Collector.AddPage` and `Collector.Collect` prove it dead).
* The count-only native-token selector of `tokens/iotasmr/send.go` can refuse an amount that is there:
  `Selection.CountOnlyMissesFunds` is an instance, `Selection.CountOnlyCompleteIff` the exact condition.
* After a restart the builder keeps the inputs of the abandoned pass, so inputs exceed outputs by exactly those
  (`IotaSend.ExactAccounting`; an instance is `IotaSend.RestartKeepsInput`).
* The inputs of a proposal can pass 128 or name an output twice, which TIP-20 forbids: exact condition in
  `InputRules.NativeInputsValidIff` and, on the pages alone, `InputRules.RestartFreeInputsValidIff` and
  `InputRules.RestartFreeBasicValidIff`; instances `InputRules.TopUpPassesLimit`, `InputRules.BasicPassesLimit`
  and `InputRules.RestartRepeatsInput`. As long as the indexer keeps one output in front, every restart after the
  first input is such a case (`InputRules.OrderedRestartsValidIff`).
* On the base-coin path the amount is cut to 64 bits (`IotaSend.CreateUnWrapTxData`, instance
  `IotaSend.TruncatedAmount`) and the change is not checked against its storage deposit
  (`IotaSend.GetUnsignedTxDataBasic` and, from the pages and the amount alone, `IotaSend.SmallCallCoversRentIff`;
  instance `IotaSend.ChangeBelowRent`).
* An order whose row was inserted does not always stay live. The row is left without an owner by a lost
  acknowledgement, a proposal or a key that fails, a refused send or sign request, a signature that never comes or
  cannot be submitted, a conflict whose delete is refused, or a crash, and by nothing else but a completed order
  and the row of an EVM order (`OrderSafety.OrphanedIff`, over runs `OrderSafety.OrphanAfterRunIff`, for a whole
  call `HandlerRuns.CallLeavesOrphanIff`; a run from the start is `HandlerRuns.FailedProposalStrands`). On a
  non-EVM path nothing ever takes the txid of such a row up again (`OrderSafety.OrphanForever`); a wrap or an EVM
  order is not blocked by a row (`HandlerRuns.RowBlocksNoEvmOrder`).
* A speed-up need not replace (`Replacement.DecisionIff`), and the sweep can forget a transaction that is still
  pending: when it is older than three waiting periods, which is not even asked about, and within them when a
  dearer replacement was refused or an identical one was taken (`Replacement.PendingDropIff`; an instance of the
  age is `Replacement.AgedPendingForgotten`). A second speed-up at an unchanged suggestion is always identical
  (`Replacement.RepeatedSuggestion`).
* An error record of the wrong size stops the listener. Every good record from the first start on is handed on
  exactly once if and only if none stands behind such a log in its block, nor in a block before the head at which
  the listener comes back, nor in front of the log when the listener comes back in front of it
  (`ErrorListener.CoverageIff`; an instance is `ErrorListener.RecordLost`).
* Votes are unique per sign key, not per unwrap transaction: exact condition `Accept.OneVotePerTransactionIff`,
  instance `Accept.TwoKeysTwoVotes`.
* With a scan cap of 0 the scanner never gets past a head that is ahead of it (`Scanner.CatchesUpIff`).

## Model

| member | source | states |
|---|---|---|
| OrderSafety.SingleOwnership | server/detect.go:153-255 | over every interleaving of all nodes, resets, faults and crashes: a txid on a non-EVM unwrap path has at most one owner in the whole system, every owner's row is in `swap_order`, and requests and submissions are at most 1 + the moves to the error table |
| OrderSafety.StepKeepsOwnership | server/recheck.go:11-36 | no step gives a txid a second owner or takes the row away from under an owner |
| OrderSafety.OwnerTraces | server/detect.go:179-255 | an owner after a step was an owner before it (goroutine, queue or recheck) or has just inserted the row |
| OrderSafety.RowStaysWithOwner | server/recheck.go:28-35 | whoever owned an order before a step and owns it after it still finds its row: only the recheck that owns it deletes it |
| OrderSafety.StepKeepsRows | model/swap.go:18-46 | inserts = moves + rows present, for every txid |
| OrderSafety.PaymentOf | server/detect.go:205-255 | a sign request still to come is not yet paid for by its insert, and by single ownership nobody else can have used it |
| OrderSafety.StepKeepsPayment | server/detect.go:205-255 | sign requests and submissions never exceed inserts |
| OrderSafety.RunKeepsSafe | server/detect.go:153-255 | all invariants of the machine over any run from any safe state |
| OrderSafety.OrphanedIff | server/detect.go:179-255 | a step leaves a row without an owner if and only if it strands the order (lost acknowledgement, failed proposal or key, refused send or request, no signature, failed submission, refused delete, crash), completes it (sent by the one key, found on the ledger), or files the row of an EVM order |
| OrderSafety.OrphanAfterRunIff | server/detect.go:153-255 | at the end of any run a row stands without an owner if and only if such a step occurred |
| OrderSafety.OwnerGoesOn | server/recheck.go:13-35 | in every other step the owner stays one, in the place the step moves it to |
| OrderSafety.OrphanForever | server/detect.go:179-202 | a row without an owner blocks its txid on the non-EVM paths in every continuation: no sign or send request there, no submission, no move |
| OrderSafety.StrandedForever | server/detect.go:179-255 | after any stranding step, in every run of every node, the order is never signed, submitted or moved again |
| OrderSafety.CrashStrands | server/var.go:49-60 | in particular, a node that stops while it owns an order strands it for every later run of every node |
| NodeSafety.AttemptsBoundedByResets | server/var.go:30-47 | for every interleaving of the wrap, unwrap and error-record goroutines, a node attempts a txid at most 1 + (resets of its dealt set) times |
| NodeSafety.DayLongProtection | server/txerrdeal.go:61-79 | no send on account of an error record had its `Exist` check in the day after a recorded send of the same txid, whenever the maps are cleared and swept |
| NodeSafety.NodeKeepsBound | server/detect.go:117-135 | each passed dedup check is paid for by a reset, except the one the dealt set remembers |
| NodeSafety.NodeKeepsRecords | server/var.go:148-172 | every record younger than a day stays in the map, with its time or a later one |
| NodeSafety.RunKeepsNodesSafe | server/detect.go:100-255 | the three node invariants over any run |
| QueueSafety.PushesConserved | server/recheck.go:11-36 | in every state of every run, in the middle of a tick or between ticks, on any number of nodes: every push of a txid is waiting (in one place at most), landed, moved to the error table, or lost by a crash or a refused delete; exactly one of these |
| QueueSafety.StepKeepsPushes | server/var.go:55-73 | every atomic step keeps that balance |
| OrderHandlers.DealOrder | server/detect.go:100-255 | the whole effect of one handler call: dedup set, table, attempts, records and both queues are those of the call's specification `CallEnds` |
| OrderHandlers.DealTxErrorRecord | server/txerrdeal.go:41-80 | an unknown coin, a failed check or a recorded send blocks the record and changes nothing; otherwise the order is dealt as an event's, queue entries included |
| OrderHandlers.DetectSignStatus | server/detect.go:257-280 | if poll i is the first that brings signatures, its first one is submitted, once, and the result is the submission's; if all polls are silent, nothing is submitted |
| OrderHandlers.SubmittedHashIff | server/detect.go:242-253 | the hash of a call is obtained if and only if the request is accepted and the first signature that any poll brings is submitted with that result |
| OrderHandlers.CallMeans | server/detect.go:153-255 | the end of a call in terms of the dealt set, the table, the answers and the polls: which calls are dealt, stored, attempted, recorded and queued |
| OrderHandlers.Admit | server/detect.go:153-202 | guards, dedup and insert: who gets past, and what the dealt set and the table are then |
| OrderHandlers.SignWithGroup | server/detect.go:223-255 | at most one request; the order is queued for recheck with the hash exactly when the request was accepted and the first signature of any poll was submitted successfully |
| OrderHandlers.SendDirectly | server/detect.go:117-150 | at most one send; only a successful EVM send is queued and recorded |
| HandlerRuns.HandlerIsRun | server/detect.go:100-255 | an uninterrupted call, for an event or for an error record that passed `Exist`, is an enabled run of the protocol machine with the same effect |
| HandlerRuns.ViewFollowsRun | server/detect.go:100-255 | a run of one goroutine's steps is a run of the machine and changes its node and the table as the steps say |
| HandlerRuns.CallLeavesOrphanIff | server/detect.go:179-255 | a call for a new txid leaves a row that nobody owns if and only if it passes the checks, its row is written, and it does not end with a submitted transaction in the recheck queue |
| HandlerRuns.FailedProposalStrands | server/detect.go:223-228 | from the start, an unwrap order whose proposal cannot be built leaves its row behind and is never signed, submitted or moved in any continuation |
| HandlerRuns.RowBlocksNoEvmOrder | server/detect.go:117-136 | a wrap or an EVM order that the node has not dealt is sent, whether its row is there or not |
| RecheckRuns.RecheckIsRun | server/recheck.go:11-36 | a recheck tick, with any pushes before it and during its check, is an enabled run of the machine with the same queue and the same keys in the table |
| RecheckRuns.PushesRun | server/var.go:55-60 | pushes of different goroutines are enabled one after the other and append their orders in that order |
| SwapTable.Database.StoreSwapOrder | model/swap.go:18-24 | inserts a row with no hash and state 0 and the default `org`, refuses a second row of the same txid, touches no other row |
| SwapTable.Database.MoveOrderToError | model/swap.go:26-46 | the row leaves and the error row appears, or neither |
| SwapTable.Database.UpdateChainRecord | model/swap.go:48-51 | changes hash and state of one row and no key |
| NodeVars.DealedOrdersCheck.Check | server/var.go:30-38 | true exactly for a txid that was not dealt since the last reset, which it then is |
| NodeVars.DealedOrdersCheck.Expired | server/var.go:40-47 | forgets every txid |
| NodeVars.SentEvmTxMap.Push | server/var.go:148-152 | stamps the txid with the present time, nothing else changes |
| NodeVars.SentEvmTxMap.Exist | server/var.go:154-159 | true exactly for recorded txids |
| NodeVars.SentEvmTxMap.Expired | server/var.go:161-172 | the copying loop keeps exactly the entries with now < at + 86400, with their times |
| IotaRecheck.RecheckIota | server/recheck.go:11-36 | over any ticks with any pushes in between: queue, resolved orders, rows (states and hashes) and error table are those of the specification, and only rows of conflicting orders leave |
| IotaRecheck.RecheckOnce | server/recheck.go:13-35 | one tick: which order is popped, the new queue, the row it updates or deletes and the error row it writes |
| IotaRecheck.JudgedMeans | server/recheck.go:19-34 | what a tick writes: a landed order gets its hash and state 1 in its row, a conflicting one leaves the table and stands in state 2 in the error table, no other row is touched |
| IotaRecheck.TickMeans | server/recheck.go:14-27 | what a tick does with the head: behind the pushes made meanwhile, or to the landed or the conflicting ones |
| IotaRecheck.ErrorsAreConflicting | server/recheck.go:28-34 | unless the database refuses, the error table grows by exactly the conflicting orders, in state 2, in the order they were found |
| IotaRecheck.OnlyConflictingLeave | server/recheck.go:19-34 | over any ticks, rows leave the table for conflicting orders only, and none come in |
| IotaRecheck.RecheckConserves | server/recheck.go:11-36 | with multiplicity, every order pushed is queued or resolved in exactly one of the two ways, with the token it was pushed with |
| IotaRecheck.TryLaterRotates | server/recheck.go:19-27 | k "try later" answers rotate the queue by k |
| IotaRecheck.FullRoundRestores | server/recheck.go:19-27 | n "try later" answers on n orders restore the order |
| IotaRecheck.SentIotaTx.Push | server/var.go:55-60 | appends the pair (order, token) |
| IotaRecheck.SentIotaTx.Pop | server/var.go:62-73 | takes the oldest pair, or reports an empty queue |
| EvmRecheck.SentEvmTxQueue.Push | server/var.go:90-96 | appends one triple to the three parallel slices |
| EvmRecheck.SentEvmTxQueue.Pop | server/var.go:98-107 | removes the head triple, if any |
| EvmRecheck.SentEvmTxQueue.Top | server/var.go:109-116 | shows the head triple, if any |
| EvmRecheck.SentEvmTxQueue.UpdateTop | server/var.go:118-127 | overwrites the head triple and nothing behind it |
| EvmRecheck.Turn | server/recheck.go:41-83 | with pushes between `Top` and the action, `Pop` and `UpdateTop` act on the entry that `Top` returned; which action it is, TurnIff says |
| EvmRecheck.RecheckEvmTx | server/recheck.go:38-85 | one sweep at a frozen clock ends after at most (aged entries + 1) turns with at most one speed-up, and is the sweep of one sequence of triples, of which YoungHeadStays, SweepGoesOn and SweepIsRun speak |
| EvmRecheck.YoungHeadStays | server/recheck.go:43-47 | a sweep that finds a head younger than the waiting time leaves the queue as it is, with what was pushed meanwhile, and replaces nothing |
| EvmRecheck.SweepGoesOn | server/recheck.go:41-83 | a sweep goes on until the queue is empty, its head was replaced, or its head is to stay and is not older than three waiting times |
| EvmRecheck.ApplyMeans | server/recheck.go:48-78 | a turn lets the pushes in and does nothing else, or removes the head, or gives it the new hash and the present time; never anything behind it |
| EvmRecheck.DropReducesAged | server/recheck.go:41-60 | a drop removes one aged entry, whatever is pushed meanwhile |
| EvmRecheck.TurnKeepsSorted | server/recheck.go:41-83 | one turn, with pushes in it, keeps the timestamps behind the head sorted and not in the future |
| EvmRecheck.SweepKeepsSorted | server/recheck.go:38-85 | so does one sweep at a frozen clock |
| Replacement.RunKeepsSorted | server/var.go:90-127 | over any run whose clock does not go back, through any number of sweeps and pushes, the timestamps behind the head stay sorted and not in the future |
| Replacement.CheckPendingAndSpeedUp | tokens/evm/contract.go:355-388 | exactly when something is submitted, at 120 percent plus the margin of the suggestion rounded down, with the account, nonce, target, value, gas and data of the transaction it replaces; the hash and error reported in every branch |
| Replacement.StepKeepsLineages | server/recheck.go:38-85 | all transactions ever submitted for a slot replace the earlier ones, kept or dropped |
| Replacement.RunRefinesQueue | server/recheck.go:41-83 | after any run the queue of hashes that the program holds is that of the slots: each hash names the last transaction of its slot |
| Replacement.StepRefinesQueue | server/recheck.go:41-83 | so does every push and every turn, whatever the node answers |
| Replacement.SweepIsRun | server/recheck.go:38-85 | a whole sweep with the node's answers and pushes in every turn is a run of turns and sends |
| Replacement.SweepOfSlots | server/recheck.go:38-85 | so the queue that a sweep leaves behind is that of the slots after those events |
| Replacement.PushesAfterTurn | server/recheck.go:41-83 | a push inside a turn has the effect of a push after it |
| Replacement.RunKeepsLineages | server/recheck.go:38-85 | over any run, all transactions of a slot replace the earlier ones |
| Replacement.AtMostOneMined | tokens/evm/contract.go:355-388 | over any run of sends, pushes and turns (a sweep is one, SweepIsRun), all transactions ever submitted for a slot agree in account, nonce, target, value, gas and data with prices that never fall, and a chain that takes one transaction per account and nonce mines at most one of them |
| Replacement.DecisionIff | server/recheck.go:46-82 | within the waiting window a turn replaces if and only if a dearer transaction was offered and taken; a transaction that is still pending is dropped if and only if a dearer one was refused or an identical one taken |
| Replacement.PendingDropIff | server/recheck.go:42-82 | for every turn on a pending transaction, whatever its age and with or without the keystore: it is dropped if and only if it is older than three waiting periods, or within them a dearer one was refused or an identical one taken |
| Replacement.TurnIff | server/recheck.go:42-82 | for every turn, whatever the age, the keystore and the node say: it replaces if and only if the entry is in the waiting window, the key is readable and a dearer transaction was offered and taken, with the hash of that transaction; and exactly when it drops |
| Replacement.SpeedUpIsDearer | tokens/evm/contract.go:285-286 | at a suggestion of 5 or more the speed-up of a transaction sent at it is strictly dearer |
| Replacement.PricesRoundDown | tokens/evm/contract.go:369-370 | both prices are the percentages rounded down; a bridge transaction moves no coins and has the fixed gas limit |
| Replacement.AgedPendingForgotten | server/recheck.go:48-51 | an instance: two turns that find the transaction pending, the second of which drops it for its age |
| Replacement.RepeatedSuggestion | tokens/evm/contract.go:285-288 | a bridge transaction at an unchanged suggestion: the speed-up is never too cheap and counts if and only if it is taken and dearer; the second one rebuilds the same transaction, and the sweep forgets it, pending as it is, if the node takes it again |
| Selection.AllEligibleIff | tokens/iotasmr/send.go:455-462 | what can be selected is exactly what some page lists: for base coins the outputs without a token, for a token those that hold that one token and no other |
| Selection.PassTakesListed | tokens/iotasmr/send.go:391-405 | whatever a pass takes was listed; where metadata is asked for, it was listed live |
| Selection.PassEndings | tokens/iotasmr/send.go:386-404 | a pass fails only for a page whose ids cannot be read and restarts only for an eligible output that is not live |
| Selection.CleanPassFinishes | tokens/iotasmr/send.go:386-412 | without either it ends |
| Selection.SelectionIsComplete | tokens/smr/send.go:197-226 | a selector that stops on count and sum covers the amount if and only if all eligible outputs of all pages do, although it leaves pages early |
| Selection.NothingInvented | tokens/iotasmr/send.go:384-412 | a selection extends what was taken by eligible outputs only and is worth no more than everything there is |
| Selection.ShortMeansAll | tokens/iotasmr/send.go:384-416 | a selection that falls short has left nothing behind |
| Selection.FewAreAllTaken | tokens/iotasmr/send.go:386-412 | up to the cap everything eligible is taken, whatever the amount |
| Selection.WithinCapIff | tokens/iotasmr/send.go:386-412 | a selection keeps to the cap if and only if everything eligible does, or the first `cap` outputs meet the need and no later page holds anything eligible |
| Selection.CountBound | tokens/iotasmr/send.go:449-471 | after k pages a count-only selector holds at most cap + k - 1 inputs |
| Selection.CountOnlyTakesAll | tokens/iotasmr/send.go:449-471 | a count-only selector takes everything if and only if every page fits |
| Selection.CountOnlyCompleteIff | tokens/iotasmr/send.go:419-476 | with positive values, it serves every amount that is there if and only if every page fits |
| Selection.CountOnlyMissesFunds | tokens/iotasmr/send.go:449-476 | 129 outputs of one token on one page: 128 are taken, so 129 is refused |
| Collector.Collect | tokens/iotasmr/send.go:378-412 | the imperative page loop appends exactly the inputs of the specification to the builder and ends as it does; both sums are those of the inputs; the retry count is 0 at every page |
| Collector.AddPage | tokens/iotasmr/send.go:390-411 | one page of that loop: it raises the retry count only to leave the pass, so the give-up branch is dead |
| IotaSend.GetBasicUnspentOutputs | tokens/iotasmr/send.go:356-417 | result and builder over any number of restarts, the inputs of abandoned passes included |
| IotaSend.OnePass | tokens/iotasmr/send.go:378-416 | one pass from the label on: what it appends and whether it returns or jumps back |
| IotaSend.RestartMeans | tokens/iotasmr/send.go:396-404 | a restart abandons what the pass had taken, and the next answer is taken from scratch |
| IotaSend.ExactAccounting | tokens/iotasmr/send.go:378-416 | deposits of all inputs appended = amount + change + deposits of abandoned passes; with positive deposits the books balance exactly when no abandoned pass had appended an input |
| IotaSend.RestartKeepsInput | tokens/iotasmr/send.go:396-405 | an instance: 20 are consumed for an amount of 10 and no change |
| IotaSend.RestartFreeComplete | tokens/iotasmr/send.go:384-416 | without a restart the call succeeds if and only if the eligible deposits of all pages cover the amount, and reports the exact surplus |
| IotaSend.FillUpCountBound | tokens/iotasmr/send.go:384-412 | the amount-0 call over k pages holds at most 128 + k - 1 inputs when restart-free |
| IotaSend.GetNativeTokenOutputs | tokens/iotasmr/send.go:419-476 | success condition, token change and the deposits that came along |
| IotaSend.NativeCountBound | tokens/iotasmr/send.go:449-471 | over k pages at most 128 + k - 1 token inputs |
| IotaSend.NativeCompleteIff | tokens/iotasmr/send.go:449-476 | the token selector serves every amount the pages hold if and only if no page overflows the count |
| IotaSend.GetUnsignedTxDataNativeToken | tokens/iotasmr/send.go:286-354 | the native path in `uint64` arithmetic: exactly when it succeeds, and its inputs, commitment, outputs and hash |
| IotaSend.AddOrderAndTokens | tokens/iotasmr/send.go:292-334 | its first half: the order, the token inputs and the token change, and the two running amounts |
| IotaSend.NothingTruncates | tokens/iotasmr/send.go:312-351 | where the supply fits, no `uint64` operation of the native path truncates |
| IotaSend.NativePathBalances | tokens/iotasmr/send.go:286-354 | it succeeds exactly when the tokens are there and the base coins cover the rents; then base coins balance (up to abandoned passes), every token whatever its id balances, every token in a consumed output is the call's, every output covers its own storage deposit, and the order comes first |
| IotaSend.SmallWalletServableIff | tokens/iotasmr/send.go:312-351 | for at most 128 outputs of either kind and no restart, what the wallet holds decides: the tokens cover the amount, and the base coins that come with them are exactly the storage deposits or with all others cover them and that of a third output |
| IotaSend.AddTopUp | tokens/iotasmr/send.go:335-352 | its second half: when the top-up is served, and its inputs and the base-coin change |
| IotaSend.GetUnsignedTxDataBasic | tokens/iotasmr/send.go:246-284 | the base-coin path: success, inputs, conservation, and the exact condition under which its outputs cover their storage deposits |
| IotaSend.SmallCallCoversRentIff | tokens/iotasmr/send.go:246-284 | restart-free over at most 128 eligible outputs: the funds on the pages and the amount decide success, the change, and whether both outputs cover their storage deposits |
| IotaSend.ChangeBelowRent | tokens/iotasmr/send.go:273-281 | an instance: a call succeeds with a change below its storage deposit |
| IotaSend.CreateUnWrapTxData | tokens/iotasmr/send.go:171-185 | errors for bad addresses and long tags; whatever it proposes, a validator reads back the same receiver and tag, and the token amount, or the base-coin amount modulo 2^64 |
| IotaSend.TruncatedAmount | tokens/iotasmr/send.go:247-258 | an instance: 2^64 + 1 base coins are served by one coin and read back as 1 |
| Ledger.WrapIsRemainder | tokens/iotasmr/send.go:247 | truncation to `uint64` is the remainder modulo 2^64 |
| InputRules.NativeInputsValidIff | tokens/iotasmr/send.go:286-354 | if the indexer lists an output once per answer, the inputs of a proposal are those that TIP-20 allows if and only if they are 1 to 128 and no restart took an output again |
| InputRules.RestartFreeInputsValidIff | tokens/iotasmr/send.go:386-471 | without a restart the sizes of the two lists of pages decide it |
| InputRules.BasicInputsValidIff | tokens/iotasmr/send.go:246-284 | the same for the base-coin path, over any restarts |
| InputRules.RestartFreeBasicValidIff | tokens/iotasmr/send.go:246-412 | without a restart the pages and the amount decide it for the base-coin path: something is eligible, and it is at most 128 outputs, or the first 128 pay the amount and nothing eligible stands on a page behind them |
| InputRules.OrderedRestartsValidIff | tokens/iotasmr/send.go:378-412 | if every answer of the indexer lists the same output first, the inputs name an output twice if and only if an abandoned pass had appended one |
| InputRules.OrderedNativeInputsValidIff | tokens/iotasmr/send.go:286-354 | and then a proposal is valid if and only if it has 1 to 128 inputs and no abandoned pass had appended one |
| InputRules.SelectionIsDistinct | tokens/iotasmr/send.go:386-412 | a selection from pages that list every output once holds every output once |
| InputRules.RestartRepeatsInput | tokens/iotasmr/send.go:396-405 | an instance: a restart takes its output again |
| InputRules.TopUpPassesLimit | tokens/iotasmr/send.go:335-352 | an instance: 128 token outputs and one for the storage deposit make 129 inputs |
| InputRules.BasicPassesLimit | tokens/iotasmr/send.go:405-411 | instances on the base-coin path: n outputs of one coin for an amount of n, for every n above 128, make n inputs |
| NativeBooks.BooksBalance | tokens/iotasmr/send.go:318-351 | order, token change and base-coin change balance the inputs in base coins and in every token |
| NativeBooks.ChangeCoversRent | tokens/iotasmr/send.go:312-351 | rents computed before the amounts are filled in are still the outputs' own |
| Ledger.SameShapeIff | tokens/iotasmr/send.go:312-331 | outputs have the same size exactly when they agree in the number of tokens, the address and the lengths of metadata and tag |
| ShimmerSend.SendUnWrap | tokens/smr/send.go:65-151 | the value arithmetic in `uint64`: exactly when it succeeds, and its inputs and outputs |
| ShimmerSend.AddOrderAndTokens | tokens/smr/send.go:82-115 | its first half: the order, the token inputs, the token change and the two running amounts |
| ShimmerSend.SendBalances | tokens/smr/send.go:82-133 | where the supply fits, it succeeds exactly when the call can be served, and then base coins and every token balance, every token in a consumed output is the call's, every output covers its storage deposit and the first is the order |
| ShimmerSend.SmallWalletServableIff | tokens/smr/send.go:93-132 | for at most 128 token outputs and 64 base-coin outputs, what the wallet holds decides |
| ShimmerSend.TokensAreFound | tokens/smr/send.go:170-227 | the tokens are found if and only if all pages together hold them |
| ShimmerSend.TopUpCountBound | tokens/smr/send.go:257-274 | the top-up over k pages holds at most 64 + k - 1 inputs |
| TxBuilder.LatestLookup | tokens/iotasmr/types.go:39-63 | the key set of `inputs` is the set of ids in the essence, so the ordered lookup is total, and it is aligned position by position |
| TxBuilder.UnsignTransactionBuilder.AddInput | tokens/iotasmr/types.go:39-43 | appends the id and files the output |
| TxBuilder.UnsignTransactionBuilder.AddOutput | tokens/iotasmr/types.go:46-49 | appends the output |
| TxBuilder.UnsignTransactionBuilder.GetTxEssenceData | tokens/iotasmr/types.go:53-75 | the commitment is over the consumed outputs in input order, the lookup never misses, and the hash is the essence's signing message |
| TxBuilder.BuildUnlocks | tokens/iotasmr/types.go:79-92 | one unlock per input, one signature at index 0, every reference resolves to it (unlock rules of TIP-20) |
| Agreement.ProposalsPass | tokens/evm/detect.go:159-181 | every proposal made from the log of a mined unWrap call passes every validator if the log agrees with the calldata and claims no more; a log whose symbol word is a name filled up with zero bytes is proposed exactly by the token of that name; what the essence pays is the log's amount unless it was truncated |
| Agreement.Propose | server/detect.go:153-222 | an order for another token is refused; what is proposed reads back as the order |
| Agreement.ReadingPasses | tokens/evm/contract.go:214-247 | a proposal that reads as (receiver, amount, transaction) passes if the transaction backs it |
| Agreement.VettedMeansCalled | tokens/evm/contract.go:214-247 | conversely, what passes pays a receiver and symbol that a mined unWrap call names, and no more than it covers |
| Accept.AcceptLoop | server/accept.go:16-84 | the loop votes for the first vetted request of each key among those it deals with, and ends early only at an unreadable keystore: each sign key gets at most one AcceptSign, each for a vetted request, none for a key that only requests older than overTime ask for, and a loop that never stopped has accepted the key of every vetted request |
| Accept.AcceptTick | server/accept.go:32-81 | the same for the requests of one tick, with the accepted set equal to the keys called |
| Accept.AcceptTicks | server/accept.go:16-84 | the same over all ticks, for any check that decides which requests are valid |
| Accept.VotesSoundAndComplete | server/accept.go:32-81 | voting for the first vetted request of each key means: vetted requests only, distinct keys, and no key of a vetted request left out |
| Accept.OneVotePerTransactionIff | server/accept.go:55-68 | the votes name distinct unwrap transactions if and only if no two keys ask for the same one |
| Accept.TwoKeysTwoVotes | server/accept.go:55-68 | an instance: two requests with different keys and the same tag are both voted for |
| Ballots.VotedIffFirst | server/accept.go:63-67 | exactly the first valid requests of their keys are voted for |
| Ballots.VotesDifferIff | server/accept.go:63-67 | the votes differ in any other respect if and only if the first valid requests of any two keys do |
| Accept.VotesAreBacked | server/accept.go:51-66 | a vote is for the signing message of an essence whose first output (receiver, amount, txid) is backed by a mined unWrap call with the right symbol |
| Accept.VettedIff | server/accept.go:34-61 | a request is vetted exactly when it is a single fresh unwrap request between known tokens for the signing message of an essence whose first output is backed by a mined unWrap call of that receiver and symbol, for its amount or more |
| EvmCalldata.BuildCalldata | tokens/evm/contract.go:303-317 | a zero receiver is refused; otherwise the calldata is the selector and three words, the last of which ends with the 20 bytes of the receiver however it is spelled (EIP-55 included) |
| EvmCalldata.EncodeLayout | tokens/evm/contract.go:259-273 | the three words stand where the reader looks for them |
| EvmCalldata.EncodeWords | tokens/evm/contract.go:265-273 | for a txid of any length: a long one keeps its first 32 bytes, a short one its value; the amount and the receiver likewise keep theirs |
| EvmCalldata.LastBytesAreKept | tokens/evm/contract.go:208-215 | addresses and hashes keep the last 20 and 32 bytes of a long string and the value of a short one |
| EvmCalldata.CalldataReadBack | tokens/evm/contract.go:153-212 | the reader accepts what the writer wrote for exactly its own direction, txid, amount and receiver, and only for a failed transaction of the bridge |
| EvmCalldata.EncodeInjective | tokens/evm/contract.go:260-273 | different orders have different calldata |
| EvmCalldata.UnWrapReadBack | tokens/evm/contract.go:214-247 | a mined unWrap call passes for exactly its own receiver and symbol word, and with nothing trailing for exactly the amounts it covers |
| EvmCalldata.NamedReadBack | tokens/evm/contract.go:230-244 | a call whose symbol is a name passes exactly for its receiver, that name and the amounts it covers |
| Bytes.SetBytesToBytes | tokens/evm/contract.go:199-203 | `SetBytes` undoes `Bytes` |
| Bytes.PaddedRoundTrip | tokens/evm/contract.go:264-272 | an amount below 2^256 fills a word exactly and is read back |
| Bytes.HexRoundTrip | tools/aes.go:78-91 | decoding undoes encoding, two digits a byte |
| Bytes.FromHexRoundTrip | server/txerrdeal.go:66-73 | `FromHex` reads back both spellings of a txid, with and without 0x |
| Bytes.FromHexOfSpelling | tokens/evm/contract.go:260-273 | and every spelling in any letter case |
| Bytes.OddSpelling | tokens/evm/contract.go:265 | an odd number of digits is read as if a zero stood in front |
| Bytes.DecodeStringIff | tools/aes.go:88-91 | a text decodes if and only if its length is even and all its characters are hex digits |
| Bytes.SymbolIsCutOut | tokens/evm/detect.go:167 | a name without a zero byte, filled up to a word, is cut out again |
| Bytes.NameIsCutOut | tokens/evm/contract.go:235 | the same whatever stands behind the first zero byte |
| Scanner.ScanBlock | tokens/evm/detect.go:54-90 | over any heads and failures, after any number of rounds the events of all blocks from the start to the next height were handed on exactly once, in order, and nothing else |
| Scanner.HandleLogs | tokens/txerr.go:100-113 | the logs of one range are handed on one by one; only the error-record scanner leaves removed ones out |
| Scanner.StandingOne | tokens/txerr.go:104-107 | which logs stand: all but the removed ones (with StandingConcat, and in which order) |
| Scanner.RoundMeans | tokens/evm/detect.go:57-89 | where each kind of round leaves the scanner |
| Scanner.RangesTile | tokens/evm/detect.go:61-90 | the successful ranges tile [start, next) and span at most cap + 1 blocks |
| Scanner.TilesExactlyOnce | tokens/evm/detect.go:61-90 | tiling means: a block is in some range if and only if it is in [start, next), and in one only |
| Scanner.CatchUp | tokens/evm/detect.go:66-90 | when every round succeeds at a head that stands still, the scanner is past it after max(1, ceil((H - from) / S)) rounds and not before |
| Scanner.CaughtUpIff | tokens/evm/detect.go:54-90 | with failures of either kind in any round, the scanner is past a head that stands still if and only if it has had exactly max(1, ceil((H - from) / S)) successful rounds, and if and only if at least that many rounds did not fail |
| Scanner.FailuresOnlyDelay | tokens/evm/detect.go:57-81 | failing rounds change neither the heights nor the number of ranges that the healthy rounds bring |
| Scanner.CatchesUpIff | tokens/evm/detect.go:66-89 | at a head that stands still the scanner gets past it if and only if the cap is not 0 or only the head is left |
| ErrorListener.CoverageIff | server/txerrdeal.go:21-38 | over all restarts of the listener, every good record from the first start to the present is handed on exactly once and in order if and only if no gap and no repetition holds one |
| ErrorListener.GapsAndRepeats | server/txerrdeal.go:21-38 | over all restarts, what is handed on less what is repeated is as much as there is less what fell into the gaps |
| ErrorListener.RepeatsAreDuplicates | server/txerrdeal.go:21-38 | whatever a session repeats is dealt with twice |
| ErrorListener.NoWayPast | tokens/txerr.go:160-168 | a listener that comes back at or before the block that broke it gets no further and only repeats what it had handed on |
| ErrorListener.ScanHandsOn | tokens/txerr.go:79-115 | what one scan hands on, to its present height or up to the log that ends it |
| ErrorListener.ScanErrorRecords | tokens/txerr.go:62-116 | the scanning loop, over any heads and failures, is the specified scan |
| ErrorListener.HandRange | tokens/txerr.go:104-113 | the loop over one range hands on the good logs in front of the first of the wrong size, and no other |
| ErrorListener.DealMeans | tokens/txerr.go:104-113 | of a range with a first log of the wrong size, the good logs in front of it are handed on |
| ErrorListener.GoodIff | tokens/txerr.go:105-168 | a log is good exactly if it was not taken back and has the right size |
| ErrorListener.ListenTxErrorRecord | server/txerrdeal.go:21-38 | the outer loop hands on what its scans do, one after the other |
| ErrorListener.RecordLost | tokens/txerr.go:160-168 | an instance: a good record in the block behind a log of the wrong size is never handed on |
| Aes.GetEncryptString | tools/aes.go:112-130 | the encryption under the key and iv of the four seeds; 2 * 16 * (n / 16 + 1) hex digits |
| Aes.GetDecryptString | tools/aes.go:132-160 | the decryption under the same key and iv |
| Aes.DecryptUndoesEncrypt | tools/aes.go:112-160 | decrypting undoes encrypting for every byte string, the empty one included, every key and every iv |
| Aes.AesCBCEncrypt | tools/aes.go:60-79 | an unusable key gives the empty string, any other the padded, chained, hex-encoded text |
| Aes.AesCBCDecrypt | tools/aes.go:81-110 | an unusable key, a text that is not hex or not whole blocks gives nothing; otherwise the text without padding |
| Aes.CryptBlocksInPlace | tools/aes.go:98-101 | decryption in the ciphertext's own buffer, last block first, equals CBC decryption of the old contents |
| Aes.DecryptBlockAt | tools/aes.go:98-101 | one block of it, while everything before is still ciphertext |
| Aes.DecryptBlocks | tools/aes.go:94-109 | decrypt in place, then cut off as many bytes as the last one says |
| Aes.CbcRoundTrip | tools/aes.go:73-101 | chaining is undone by chaining backwards, for any number of blocks |
| Aes.UnpadPad | tools/aes.go:67-71 | the padding is always removable, also when the text is empty or fills its blocks |
| Aes.PadMeans | tools/aes.go:119-123 | behind the text stand as many bytes as are missing to the next block, at least one, and each is their number |
| Aes.CbcMeans | tools/aes.go:125-127 | each block is encrypted after an exclusive or with the block of ciphertext before it, the first with the iv |
| Aes.XorMeans | tools/aes.go:125-127 | a bit of the exclusive or is set exactly when the two bits differ |
| Aes.KeyAndIvMeans | tools/aes.go:162-168 | which bytes of which seed make up the key and the iv |
| Aes.MalformedGivesNothing | tools/aes.go:138-147 | a text that is empty, not whole blocks of hex digits, or holds another character gives nothing |

## Left out

- Network clients (`ethclient`, `nodeclient`, MQTT, the signing group's JSON-RPC, `rpc/client`): their answers are parameters.
- SQL text and driver: the table is a map with atomic operations and three ways to fail. `model/account.go` is a yes-or-no answer.
- Keccak, Ed25519, ECDSA, Blake2b and AES themselves: function parameters. The commitment to the inputs is the list of consumed outputs it hashes.
- Encoding of essences as JSON: a validator sees the essence that was proposed, or a context that cannot be read.
- Real time and sleeps: one clock shared by all nodes of `OrderProtocol`, which can stand still or advance at any step; a sweep of `RecheckEvmTx` sees one instant.
- IotaSend.GetBasicUnspentOutputs: the restarts are driven by a finite list of query answers, and a list that has run out answers with an error; a call that restarts for ever is not described.
- ShimmerSend.SendUnWrap: the parsing of the receiver's address, the signature and the submission of the block are not part of it.
- OrderSafety.SingleOwnership: on EVM paths an order is sent even when its row could not be stored, so it says nothing about them; NodeSafety bounds those attempts per node.
- NodeSafety.DayLongProtection: speaks of sends that the node had recorded before the check; a restart forgets the records.
- Accept.AcceptLoop: a failing keystore ends the loop for good, so completeness is stated for runs in which that does not happen; AcceptTick and AcceptTicks take the checks as one rule, which AcceptLoop fills with Vetted.
- ErrorListener.CoverageIff: for histories in which heads do not go back between restarts and the listener has by now come past every break; a log stands in one block only. Failing attempts to learn the head before a scan only delay it and are not steps.
- Replacement.RunKeepsSorted: a push is stamped when it enters the queue; the source reads the clock just before it takes the lock.
- IotaSend.SmallCallCoversRentIff: beyond 128 eligible outputs the change depends on where the pages are left, so the condition is the one of GetUnsignedTxDataBasic, on the selection.
- Scanner.ScanBlock: heights are natural numbers; the wrap of a `uint64` height at block 0 with a cap of 0 is not described.
- Calldata shorter than the words it should hold: the source slices beyond it, and the model calls that a fault without saying how the process ends.
- `GetEncryptString` and `GetDecryptString` repeat the bodies of the two CBC functions; the model calls those.
- `CreateKey`: the floating-point formula; only the length of its result matters.
- `NewBlockBuilder`: only the unlock loop; payload serialisation, parents and proof of work are not part of this model.
- `listenEvent`, `dealWrapEvent`, `dealFailedEvent`, `StartWrapListen`, `getWrapOrderFromMetaData`: subscriptions and straight-line decoding.
- `listenWrap` and `listenUnWrap`: the filter on the smallest amount comes before the handlers and only drops orders.
- `dealTxErrorRecord` with a known source coin and an unknown target coin: the nil token it looks up stops the program there.
- `CheckTxFailed` and `CheckUserTx` on IOTA and the empty methods of the Shimmer token: one query each, or nothing.
- `main.go`, `daemon`, `config`, `log`, `cmd`, `gl/version.go`: start-up, configuration and user interface.
