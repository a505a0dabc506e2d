# A verified model of the voting ledger

The repository is a replicated ledger for electronic voting, driven by the ABCI calls of a consensus
engine. This project models its connected core and proves what every run of it keeps. All of it is
Dafny; `dafny verify dfyconfig.toml` checks the whole project.

How the parts fit together:

- `Types`, `Crypto`: messages, constants, wrapping arithmetic. Keccak, the signatures and the protobuf
  encoding are arbitrary constants, so a theorem holds for all of them. The few laws a theorem needs
  (decoding undoes encoding, a key pair's signatures verify, header encodings differ) are predicates it
  requires. The hash is not assumed injective: binding results say "equal, or two of these hashed
  strings collide".
- `Merkle`, `Blocks`: the level loop, the header hash chain, and what a root and a tip hash bind.
- `LedgerSpec`: the pure ledger, a fold over blocks that adds outputs and removes spent ones.
  `WellFormed` and `Sound` hold what the fold keeps. `Verdicts` is the validator as a function of that
  ledger, `Checks` its checks as one list in the order of the source, `Acceptance` what passing them takes;
  `Accepted` and `Spending` are about runs of accepted blocks.
- `Values`, `Conservation`, `Balance`, `Supply`, `Votings`, `Hypotheses`: what is unspent of each kind, that
  is of all coins or of the votes of one voting, over blocks and runs.
- `Tables`, `Refinement`, `Saving`, `Storage`, `SpentIndex`: the four tables with the triggers written
  out. `Rep` ties the tables to the ledger; class `Database` is proved against the ledger.
- `Loading`, `Reads`, `RoundTrip`: what the queries read back, in terms of the committed blocks, and when
  a block comes back as it was saved.
- `Executor`, `AppSpec`, `App`, `Calls`, `Runs`, `Outcomes`: class `TxExecutor`, the application as a state
  machine over ABCI calls, class `BlockchainApp` proved against it, and for every sequence of calls what
  each call does and what all of them leave.
- `Payments`, `Wallet`: what a built transaction owes, coin selection and the reward. `HashLinks`, `Tally`,
  `Accounting`: the links that the vote count follows, the count, and how it adds up against the votes issued.

Hypotheses, and properties that the code does not have:

- Conservation of votes needs three things that the validator does not check about a block, together
  called a fair block: no two inputs name one output (a TODO at evote/tx_executor.go:38), output sums fit
  32 bits, and rewards carry no value type. Nothing is asked of input sums or of the length of the run.
  For each of the three `Hypotheses` has accepted blocks without it that break conservation. Without any
  of them `RunBalance` and `VotingBalance` give the exact balance of every accepted run, and
  `BalancedExactly`, `RunBalancedExactly`, `VotesKeptExactly` and `VotingConservedExactly` say exactly
  which blocks and runs conserve, where no input sum wraps.
- The supply is 1000 times the rewards under the first two alone, while that fits 32 bits. That no block
  pays two rewards for one block is not a need of conservation. It is what bounds the rewards by the
  blocks: `RewardsAreFew` says so exactly, `DistinctLinksNeeded` has accepted blocks without it, and
  `SupplyOfShortRun` draws the bound on the supply of runs of up to 4294968 blocks.
- A value type need not name a voting: a reward is accepted with any. `RunProvenance` says exactly in
  which runs every value type does, and `LookUpsSucceedExactly` that just then the look-up of a voting
  never fails for a transaction with an input.
- AppendTx does panic: it dereferences nil for an init-vote whose value type names no stored transaction.
  `CrashesExactly` gives the condition for all ledgers and transactions. `FirstDeliveryCanPanic` is an
  instance without inputs, in the very first state, `TypedRewardStrays` one with an input.
- Commit does panic: DeliverTx does not look for repeats, so an accepted transaction delivered twice in
  one block is enough (`DeliveredTwicePanics`). `CommitPanicsExactly` gives the condition.
- A saved block is not always read back unchanged; `SavedBlockComesBack` says exactly when it is.
- OnGetVoteResult dereferences nil for an unknown hash, and its last loop goes on for ever if following
  hash links never ends; both are answers of the modelled method. `NeverEndsExactly` says when that is,
  and `TallyEnds` shows that in an accepted run the loop ends after one round unless a block has the
  hash of the voting.

The message definition (proto/blockchain.proto:33) gives a voting's duration in milliseconds; the code
(evote/client_request_handlers.go:129) counts seconds, and the model follows the code.

## Model

| member | source | states |
|---|---|---|
| Merkle.BuildMerkleTreeMutable | evote/block.go:31-50 | for every non-empty list of digests the level loop ends with the root of the pair-up recursion |
| Merkle.BuildMerkleTreeTxs | evote/block.go:20-29 | the root over the transaction hashes; the zero hash for an empty block |
| Merkle.RootIsTree | evote/block.go:31-50 | pairing up level by level gives the hash of the top-down complete tree in which a missing right half is the left half again |
| Merkle.RootBinding | evote/block.go:31-50 | equal roots of equally long lists: the lists are equal, or two strings hashed on the way collide |
| Merkle.RootIgnoresPadding | evote/block.go:38-40 | repeating the last hash of an odd list never changes the root, so the length must be known for the binding |
| Blocks.CreateBlock | evote/block.go:52-74 | the block holds the given transactions; its header has the given previous hash, proposer and time, and as root the tree over their hashes, or 32 zero bytes for none; its hash is that of the encoded header |
| Blocks.TipBindsHeaders | evote/block.go:59-73 | two created chains with one tip hash have the same headers in the same order, or header encodings of theirs collide |
| Blocks.TipBindsBodies | evote/abci_app.go:190-209 | two created chains with one tip hash are equally long, and where two blocks hold equally many transactions they hold the same bodies in order, or hashed strings of theirs collide |
| WellFormed.ReplayWF | evote/database.go:160-256 | every chain of saved blocks keeps: linear blocks, distinct transaction hashes, distinct unspent outputs, each an output of a stored transaction |
| WellFormed.LinearChain | database/initdb/init.sql:97-118 | saved blocks have one root, at most one child each, no hash twice, and each other block's parent is the block saved just before |
| WellFormed.ReplayBlocks | evote/database.go:176-192 | the stored blocks are the saved ones in save order, at heights 0 to n-1 |
| WellFormed.TimesFit | database/initdb/init.sql:9 | the timestamp of every saved block fits 63 bits |
| WellFormed.LinkStays | evote/database.go:458-522 | the transaction that first links to a hash stays the first, whatever is saved later |
| Sound.AppliedCoins | database/initdb/init.sql:122-135 | a block removes every unspent output its inputs name and adds every output it makes, whatever the order inside the block |
| Sound.SpentForGood | evote/tx_executor.go:139-164 | an output that a block spends is never unspent again |
| Sound.SpentInOneBlock | evote/tx_executor.go:139-164 | no output is spent in two different blocks of a run |
| Sound.FundedEarlier | evote/tx_executor.go:139-164 | the transaction that funds an input sits in a strictly earlier block and has that output |
| Sound.RecordsFromChain | evote/database.go:193-249 | every stored transaction of a run is the whole of a transaction of its block, at its index |
| Verdicts.AcceptsExactly | evote/tx_executor.go:39-274 | accepted if and only if the body is well formed under its own hash and is a reward signed by the proposer or a same-owner same-type transfer, equal modulo 2^32, signed by the owner |
| Verdicts.InitializesStoredVoting | evote/tx_executor.go:213-249 | the part of that about init-votes: two 33-byte keys, no scan keys, and a value type naming a stored create-vote transaction with as many outputs |
| Verdicts.JudgeReward | evote/tx_executor.go:80-135 | the coinbase branch asks for a signature exactly for the fixed reward to the proposer of a stored block that no stored transaction links to |
| Verdicts.JudgeTransfer | evote/tx_executor.go:137-258 | with inputs, a signature is asked for exactly for a transfer, and of the owner of all its inputs |
| Checks.VerdictIsFirstFailure | evote/tx_executor.go:39-274 | on any well-formed ledger the answer to a transaction is that of the first check that fails in one list of checks in the order of the source, each on the coins, transactions and blocks themselves, and CodeOk if none does |
| Acceptance.AcceptedExactly | evote/tx_executor.go:39-274 | accepted if and only if the bytes parse and hash as they say, and they are a reward to the proposer of a stored, unrewarded block under the proposer's signature, or move unspent coins of one owner and type under the owner's |
| Acceptance.AcceptedIsSigned | evote/crypto.go:55-60 | no forgery: whatever is accepted has 65 signature bytes, the first 64 a signature of the hash of the body under the key of the first input's owner, or of the receiver of a reward |
| Accepted.AcceptedIsSound | evote/tx_executor.go:139-164 | in an accepted run each input names an output unspent before its block |
| Accepted.AcceptedIsCreated | evote/abci_app.go:190-209 | an accepted run is a hash chain built by CreateBlock, so its tip binds its history |
| Accepted.AcceptedTxAt | evote/abci_app.go:139-145 | each committed transaction was accepted on the ledger before its own block |
| Spending.RewardedInOneBlock | evote/tx_executor.go:109-117 | rewards in two different blocks are for two different blocks |
| Spending.CommittedBodyRejected | evote/tx_executor.go:110-164 | no later state accepts a committed body again, in any encoding and under any signature |
| Spending.RewardRefusedForGood | evote/tx_executor.go:110-117 | once a stored transaction links to a block, no reward for it is accepted ever after |
| Conservation.BlockBalance | evote/tx_executor.go:165-191 | the exact balance of any accepted block, for all coins and for the votes of any voting: the votes it creates, its rewards, plus 2^32 for each wrapped output sum, plus the value named more than once |
| Conservation.BalancedExactly | evote/tx_executor.go:165-191 | where no input sum of a transaction moving these coins wraps, a block adds exactly the votes it creates and its rewards if and only if no output sum of such a transaction wraps and no such coin is named twice |
| Conservation.VotesKeptExactly | evote/tx_executor.go:165-191 | where no input sum of a transaction moving its votes wraps, a block keeps the number of votes of a stored voting if and only if no reward is of that type, no output sum of such a transaction wraps and no vote is named twice |
| Conservation.FewCoinsNeverWrap | evote/tx_executor.go:165 | while all coins, or the votes of one voting, are worth less than 2^32, no input sum that moves them wraps in a block that names none of them twice |
| Balance.RunBalance | evote/tx_executor.go:80-191 | what is unspent of all coins, or of the votes of any type, after any accepted run: the votes created, 1000 times the rewards, plus 2^32 for each wrapped output sum, plus what its blocks spend more than once |
| Balance.RunBalancedExactly | evote/tx_executor.go:80-191 | where no input sum moving these coins wraps, that is exactly the votes created and the rewards if and only if no block names such a coin twice or wraps an output sum moving them |
| Supply.RewardsAreFew | evote/tx_executor.go:109-134 | an accepted run rewards fewer blocks than it has, at most as many as it pays rewards, and exactly as many if and only if no block pays two rewards for one block |
| Supply.SupplyIsRewards | evote/tx_executor.go:80-135 | in any accepted run whose blocks name no coin of worth twice and wrap no output sum, the supply is 1000 times the rewards, while that is below 2^32 |
| Supply.SupplyOfShortRun | evote/tx_executor.go:109-134 | it is below 2^32, with at most one reward for each block but the last, in such a run of at most 4294968 blocks that rewards no block twice |
| Votings.ProvenanceKeptExactly | evote/tx_executor.go:80-135 | a block keeps every value type the hash of a stored voting if and only if each of its rewards has no type or that of a voting stored by then |
| Votings.RunProvenance | evote/tx_executor.go:167-175 | over a whole accepted run every non-empty value type is the hash of a stored create-vote transaction after each block, if and only if no reward has a type of which no voting is stored |
| Votings.LookUpsSucceedExactly | evote/tx_executor.go:227-242 | for every transaction with an input the create-vote look-up finds one, so CodeValueTypeInvalid and the nil dereference are dead, if and only if every unspent output is plain money or a vote of a stored voting |
| Votings.CrashesExactly | evote/tx_executor.go:211-233 | on any ledger AppendTx panics if and only if the transaction passes every check up to the look-up of its voting and its value type names no stored transaction |
| Votings.InvalidTypeExactly | evote/tx_executor.go:239-242 | CodeValueTypeInvalid is answered exactly where that look-up finds a transaction that creates no voting |
| Votings.CreationBalance | evote/tx_executor.go:165-191 | the exact balance of votes over the block that creates their voting, whatever the block and the ledger hold |
| Votings.VotingBorn | evote/database.go:614-620 | where no unspent output has the type yet, the creating block issues as many votes as its outputs say and the rewards of that type add; so exactly its outputs if and only if no reward has the type |
| Votings.VotingBalance | evote/tx_executor.go:139-191 | the votes of a voting after any accepted run: those its transaction issued, 1000 for each reward of its type, plus 2^32 for each wrapped output sum, plus what was spent more than once in a block |
| Votings.VotingConservedExactly | evote/tx_executor.go:139-191 | where no input sum of a transfer of its votes wraps, a voting has exactly the votes it issued if and only if no reward has its type, no block names one of its votes twice and none wraps an output sum of such a transfer |
| Votings.VotingConserved | evote/tx_executor.go:139-191 | in a run of fair blocks of any length the unspent votes of a voting are exactly the sum of its outputs, from its block on for ever, and below 2^32 |
| Hypotheses.DistinctSpendsNeeded | evote/tx_executor.go:38 | a block that hands one coin, money or votes, to two receivers is accepted whenever it can be saved, and there is more of its kind by the coin |
| Hypotheses.OutputsFitNeeded | evote/tx_executor.go:177-191 | so is one that spends a coin, money or votes, for outputs worth 2^32 more, each of which fits its column, and there is 2^32 more of its kind |
| Hypotheses.UntypedRewardsNeeded | evote/tx_executor.go:80-135 | so is one with a reward that names a stored voting, which then has 1000 more votes |
| Hypotheses.DistinctLinksNeeded | evote/tx_executor.go:110-117 | so is one with two rewards for one block that differ in value type; both are paid, so that there are more rewards than rewarded blocks, at 1000 coins each still |
| Hypotheses.TypedRewardStrays | evote/tx_executor.go:227-233 | a reward whose value type names no stored transaction leaves an unspent output whose spending init-vote makes AppendTx panic |
| Wallet.CollectOutputs | evote/transaction.go:27-36 | the outputs of the entries in the order visited, and their sum modulo 2^32 |
| Wallet.SelectInputs | evote/transaction.go:38-47 | the inputs the greedy loop picks, and their sum modulo 2^32 |
| Wallet.BuildBody | evote/transaction.go:23-63 | the body of the greedy choice with change to the first UTXO's owner, or none if the balance is insufficient |
| Wallet.CreateTx | evote/transaction.go:10-74 | a transaction exactly if there are UTXOs and outputs and the greedily picked UTXOs cover the request; it is signed, and it parses to inputs naming the picked UTXOs, the requested outputs, the change to the first UTXO's owner if there is any, and the given type, vote type and duration |
| Wallet.GreedyExactly | evote/transaction.go:38-51 | it succeeds with the shortest covering prefix of the matching UTXOs if and only if that prefix covers the request and stays below 2^32 |
| Wallet.FailsWhenShort | evote/transaction.go:49-51 | without wrap it fails exactly when all matching UTXOs are worth less than the request, and otherwise picks the shortest covering prefix |
| Wallet.ChangeIsExact | evote/transaction.go:53-59 | without wrap the outputs with the change are worth exactly the chosen UTXOs |
| Wallet.BuiltIsAccepted | evote/transaction.go:10-74 | built from the key's own coins, with or without ignoreTypeValue, it is accepted on the same ledger if and only if the total is positive, the body fits and every chosen UTXO has the type asked of the inputs, even where sums wrap |
| Wallet.TypedFit | evote/transaction.go:38-47 | with ignoreTypeValue false, the value at every call, that last condition says that no votes fund a new voting |
| Wallet.RewardAccepted | evote/tx_executor.go:80-135 | the proposer's reward for a stored block, with whatever value type, is accepted exactly while no stored transaction links to the block |
| Wallet.RewardAcceptedOnce | evote/transaction.go:76-105 | so the one CreateMiningReward builds is, and `RewardRefusedForGood` says that this ends for good |
| Tables.SpenderExists | database/initdb/init.sql:122-135 | the mark that the trigger leaves is empty exactly when no input row of another transaction names the output |
| Tables.MarksAfterInput | database/initdb/init.sql:122-135 | the trigger keeps all marks in step with the input rows |
| Refinement.RepAddInput | evote/database.go:221-236 | an inserted input row with its trigger takes the represented ledger to the one without the named coin |
| Refinement.RepAddOutput | evote/database.go:237-249 | an inserted output row takes the represented ledger to the one with that coin |
| Refinement.UnspentMarked | evote/database.go:604-654 | marking an output removes its coin, and no other, from every UTXO query's join |
| SpentIndex.UnmarkedIsUnspent | database/initdb/init.sql:122-135 | over any accepted run isSpentByTx is null if and only if no input row names the output |
| Saving.BlockFitsExactly | database/initdb/init.sql:97-118 | the insert passes the unique key and the chain trigger exactly for blocks that extend the last block under a new hash |
| Saving.SaveRefines | evote/database.go:160-256 | the statements of SaveNextBlock go through exactly for savable blocks, and then the tables represent the ledger with the block applied |
| Storage.Database.constructor | database/initdb/init.sql:1-47 | the empty tables represent the empty ledger |
| Storage.Database.InsertBlock | evote/database.go:165-192 | the block row under its parent's row, or an error and what decides it |
| Storage.Database.InsertTransaction | evote/database.go:200-220 | the transaction row, or an error for a column overflow or a known hash |
| Storage.Database.InsertInput | evote/database.go:221-236 | one input row and the marked output, no row for an unknown hash, or an error for a column overflow |
| Storage.Database.InsertOutput | evote/database.go:237-249 | the output row, or an error for a column overflow |
| Storage.Database.SaveTransaction | evote/database.go:193-249 | all rows of one transaction, or an error and what decides it |
| Storage.Database.SaveNextBlock | evote/database.go:160-256 | all or nothing: succeeds exactly for savable blocks, then the ledger is the old one with the block applied; otherwise no row changes |
| Storage.Database.GetTxInputsAndOutputs | evote/database.go:25-86 | inputs and outputs of a transaction in the order of their index |
| Storage.Database.ScanTxs | evote/database.go:90-143 | the transactions of the rows, bodies reassembled and serialized anew |
| Storage.Database.GetBlocksByHashes | evote/database.go:260-328 | the ledger's blocks with these hashes in save order, unknown hashes left out; an error for an empty list |
| Storage.Database.GetBlockByHash | evote/database.go:330-342 | the ledger's block with this hash, if any; the panic about too many is dead |
| Storage.Database.GetTxsByHashes | evote/database.go:360-387 | the ledger's transactions with these hashes; an error for an empty list |
| Storage.Database.GetTxByHash | evote/database.go:344-356 | the ledger's transaction with this hash, if any; the panic about too many is dead |
| Storage.Database.GetTxAndTimeByHash | evote/database.go:389-456 | the transaction and its block's timestamp |
| Storage.Database.GetTxByHashLink | evote/database.go:458-522 | the first stored transaction with this hash link |
| Storage.Database.GetUTXOS | evote/database.go:563-654 | each of the three UTXO queries gives exactly the coins of the ledger that it selects |
| Storage.Database.GetBlockAfter | evote/database.go:657-732 | the block saved after the one with this hash, the first block for no hash, nothing after the last |
| Loading.TxReadBack | evote/database.go:25-143 | any represented transaction is read back with its inputs and outputs in order |
| Loading.BlockReadBack | evote/database.go:260-328 | any represented block is read back with its own header, hash and transactions in order |
| Loading.AnswerMember | evote/database.go:604-654 | a UTXO is in the answer exactly when it is an unspent output that the WHERE clause selects |
| RoundTrip.LoadSaved | evote/database.go:160-328 | what is read back of a saved block does not depend on anything saved later |
| RoundTrip.SavedBlockComesBack | evote/database.go:160-328 | a saved block is read back unchanged if and only if its bodies are in canonical form and each input names a transaction stored by then |
| Reads.UnspentExactly | evote/database.go:193-249 | the coins of a run are exactly the outputs of its transactions, with hash, type, position, value, keys and time, that none of its inputs names |
| Reads.AnswerSelects | evote/database.go:563-654 | each UTXO query answers, in the order of the ledger, with the coins of the given key, of the given transaction, or that are votes of the given type |
| Reads.TxsSelected | evote/database.go:360-387 | several hashes give the stored transactions with these hashes, each as its body, hash and signature say, in save order |
| Reads.BlocksSelected | evote/database.go:260-328 | several hashes give the blocks with these hashes, each with its header and its transactions, in save order |
| Reads.TxsOfBlock | evote/database.go:305-328 | the transactions of a block that is read back are the stored ones of its height, each as its body, hash and signature say, in save order |
| Reads.FirstLinked | evote/database.go:458-522 | a hash link finds the first stored transaction with it, and none if there is none |
| RoundTrip.WalkListsChain | evote/database.go:657-732 | going on from no hash with GetBlockAfter lists the blocks in save order |
| RoundTrip.WalkEnds | evote/database.go:697-700 | the walk ends with the last block |
| Executor.TxExecutor.Reset | evote/tx_executor.go:23-28 | no pending transactions, zero proposer, empty processed set; the timestamp stays |
| Executor.TxExecutor.BeginBlock | evote/tx_executor.go:30-33 | timestamp and proposer of the block to come, nothing else |
| Executor.TxExecutor.CheckInputs | evote/tx_executor.go:137-176 | the first error among the inputs in loop order, or the wrapping sum and the owner's key |
| Executor.TxExecutor.CheckCoinbase | evote/tx_executor.go:80-134 | the coinbase checks in order, on the committed ledger |
| Executor.TxExecutor.CheckInitVote | evote/tx_executor.go:213-254 | the init-vote checks in order, a panic for an unknown voting |
| Executor.TxExecutor.VerifySigAndAppend | evote/tx_executor.go:261-274 | appends exactly on a verifying signature of the right length; then the write to a nil map panics |
| Executor.TxExecutor.AppendTx | evote/tx_executor.go:39-259 | answers the verdict on the committed ledger and keeps only an accepted transaction; a processed duplicate is approved without a second entry |
| AppSpec.RunKeepsInv | evote/abci_app.go:125-217 | in every reachable state the committed chain is an accepted run, appBlockHash is its tip, the pending transactions are accepted on it and processedTrans is exactly their hashes |
| AppSpec.CommitPanicsExactly | evote/abci_app.go:190-217 | Commit panics if and only if a value is out of column range or a transaction or block hash would repeat; the chain trigger never fires |
| AppSpec.DeliveredTwicePanics | evote/abci_app.go:139-145 | in every reachable state, delivering an accepted transaction twice is answered CodeOk twice, and Commit then panics |
| AppSpec.CheckKeepsHashesApart | evote/tx_executor.go:62-67 | with duplicates ignored no hash is pending twice |
| AppSpec.CheckOkMeansValidated | evote/tx_executor.go:62-67 | with duplicates ignored, CodeOk of AppendTx means that a pending transaction of that hash is accepted on this ledger |
| AppSpec.DeliveryOrderIrrelevant | evote/abci_app.go:139-145 | whether DeliverTx accepts does not depend on what was delivered before in the block |
| AppSpec.NothingPendingAtFirst | evote/tx_executor.go:271-272 | before the first Commit nothing is accepted, so the nil map is never written |
| AppSpec.HeightCountsCommits | evote/abci_app.go:296-297 | appHeight is the initial height plus the number of committed blocks |
| AppSpec.ReplicasAgree | evote/abci_app.go:125-217 | two replicas whose calls agree but for CheckTx agree on the chain, the tip, the height and the deliver executor |
| App.BlockchainApp.constructor | evote/tx_executor.go:19-21 | both executors share the empty database, no block, no height |
| App.BlockchainApp.InitChain | evote/abci_app.go:296-303 | sets the height, as the state machine's step says |
| App.BlockchainApp.CheckTx | evote/abci_app.go:125-130 | the state machine's step: only the check executor changes |
| App.BlockchainApp.BeginBlock | evote/abci_app.go:132-137 | the state machine's step; an unknown proposer panics |
| App.BlockchainApp.DeliverTx | evote/abci_app.go:139-145 | the state machine's step: only the deliver executor changes |
| App.BlockchainApp.Commit | evote/abci_app.go:190-217 | the state machine's step: block saved and both executors reset, or a panic that leaves everything as it was |
| Calls.CheckTxIs | evote/abci_app.go:125-130 | in every reachable state CheckTx answers CodeParseErr for bytes that do not parse, CodeOk without a change for a well-formed transaction with a pending hash, and else that of the first check that fails; exactly with CodeOk it is pending then |
| Calls.DeliverTxIs | evote/abci_app.go:139-145 | in every reachable state DeliverTx answers CodeParseErr for bytes that do not parse and else that of the first check that fails, whatever is pending; exactly with CodeOk it is pending then |
| Calls.DeliveredExactly | evote/abci_app.go:139-145 | in every reachable state DeliverTx answers CodeOk exactly to the signed rewards and transfers |
| Calls.DeliveredIsSigned | evote/tx_executor.go:261-274 | in every reachable state CodeOk of DeliverTx takes a signature of the body's hash under the signer's key |
| Calls.CheckedIsValidated | evote/abci_app.go:125-130 | in every reachable state CodeOk of CheckTx means that a transaction pending then with that hash passes all checks on the same ledger |
| Calls.BeginBlockIs | evote/abci_app.go:105-137 | BeginBlock takes the time and the key of the validator whose 20 address bytes are copied from the call, and panics for an unknown one |
| Calls.CommittedAsBegun | evote/abci_app.go:132-217 | BeginBlock, any CheckTx and DeliverTx calls and a Commit that returns append one block on the tip, with the time and the validator's key of that BeginBlock, and with what was pending before and the deliveries that pass all checks, in order |
| Calls.CommittedUnbegun | evote/abci_app.go:190-217 | without a BeginBlock since the last Commit it has just the deliveries since, the time of the block before and the zero key |
| Calls.CommitPanicsWhen | evote/abci_app.go:190-208 | in every reachable state Commit panics exactly for a time beyond 63 bits, a block hash that is committed, or a pending transaction with a value out of column range or a hash that is committed or pending before it |
| Runs.ReachableIsAccepted | evote/abci_app.go:125-217 | whatever calls arrive, the committed chain is a run of accepted blocks |
| Runs.BetweenBlocks | evote/abci_app.go:209-212 | after a Commit nothing is pending and appBlockHash is the hash of the one block without a child |
| Runs.EveryRunSpendsOnce | evote/abci_app.go:125-217 | whatever calls arrive, no output is spent in two blocks, with no assumption on the blocks |
| Runs.DeliverAnswers | evote/abci_app.go:139-145 | in every reachable state DeliverTx answers the verdict on the committed ledger |
| Runs.CommittedIsRefused | evote/abci_app.go:139-145 | in every reachable state DeliverTx refuses a body that was committed |
| Runs.DeliverPanicsExactly | evote/tx_executor.go:211-233 | in every reachable state DeliverTx panics exactly for transactions that reach the look-up with a value type naming no stored transaction |
| Runs.FirstDeliveryCanPanic | evote/tx_executor.go:211-233 | in the very first state DeliverTx and CheckTx panic for an init-vote without inputs |
| Runs.BuiltIsDelivered | evote/transaction.go:10-74 | in every reachable state DeliverTx accepts what CreateTx builds from GetUTXOSByPkey exactly under the stated conditions |
| Runs.RewardIsDelivered | evote/transaction.go:76-105 | in every reachable state DeliverTx accepts the proposer's reward for a committed block exactly while no committed transaction links to it |
| Runs.RewardIsRefusedForGood | evote/tx_executor.go:110-117 | once some state has such a link, DeliverTx refuses every reward for that block in all later ones |
| Outcomes.EveryRunBalances | evote/abci_app.go:125-217 | whatever calls arrive, the exact balance of all coins and of the votes of any type |
| Outcomes.EveryRunSupply | evote/abci_app.go:125-217 | whatever calls arrive, the supply is the rewards while they fit 32 bits and no committed block spends a coin of worth twice or wraps an output sum |
| Outcomes.EveryRunVotes | evote/abci_app.go:125-217 | whatever calls arrive, the exact number of votes of each voting |
| Outcomes.EveryRunKeepsVotes | evote/abci_app.go:125-217 | whatever calls arrive, and however many, while the committed blocks are fair every voting has exactly the votes it issued |
| Outcomes.EveryAnswerAccounted | evote/client_request_handlers.go:116-186 | whatever calls arrive, what OnGetVoteResult answers and the votes it does not list add up to all votes of the voting if and only if no count wraps, and to those it issued if the committed blocks are fair |
| Outcomes.EveryRunAnswers | evote/database.go:563-654 | whatever calls arrive, a UTXO is in the answer of a query exactly if it is an output of a committed transaction that no committed input names and that the query asks for |
| Outcomes.EveryRunFinds | evote/database.go:344-356 | whatever calls arrive, each committed transaction is found under its hash, as its body, hash and signature say |
| Outcomes.EveryRunWalks | evote/database.go:657-732 | whatever calls arrive, going on from no hash with GetBlockAfter gives the hashes and headers of the committed blocks in order, and no more |
| Tally.EndTimeExact | evote/client_request_handlers.go:129 | for a timestamp that fits the column the end time does not wrap uint64 |
| Tally.CountVotes | evote/client_request_handlers.go:139-150 | the map holds exactly the keys voted for in time, each with its votes modulo 2^32 |
| HashLinks.NeverEndsExactly | evote/client_request_handlers.go:160-166 | however many links are followed there is one more, if and only if more links than transactions can be followed |
| HashLinks.NeverEndsOnWay | evote/client_request_handlers.go:160-166 | following links never ends exactly where some way from hash to hash along them is longer than there are transactions |
| Tally.RemoveVoters | evote/client_request_handlers.go:152-167 | where following links does end, the loop ends with the listed voters gone from the map; its own number of rounds is not bounded |
| Tally.ListEntries | evote/client_request_handlers.go:172-181 | every entry of the map once, in some order |
| Tally.ResultListsVotes | evote/client_request_handlers.go:139-181 | the result has exactly the 33-byte keys copied from receivers of in-time votes and from no output of the voting, each once, with the sum of its votes modulo 2^32, or their number under the one-vote rule |
| Tally.WholeKeysAreListed | evote/client_request_handlers.go:139-181 | where all spend keys have 33 bytes: a key is listed exactly if it received an in-time vote and no output of the voting, with the value it received |
| Types.SliceToPkeyCopies | evote/utils.go:13-21 | byte by byte, the key of a slice is the slice, cut after 33 bytes or filled up with zeros |
| Tally.OnGetVoteResult | evote/client_request_handlers.go:116-186 | the result lists exactly the keys voted for in time that are not voters, each with its votes, as said under `ResultListsVotes`; otherwise the refusals, the nil dereference, and no answer exactly where following links never ends |
| Accounting.VotesAddUp | evote/client_request_handlers.go:139-167 | the votes of a voting are the tallied ones plus unused ballots, votes held by voters and late votes, if and only if no tallied count wraps; otherwise more |
| Accounting.RunVotesAccounted | evote/client_request_handlers.go:129-167 | over any accepted run, the same for the votes issued with the rewards of their type, their wrapped output sums and what was spent more than once |
| Accounting.IssuedVotesAccounted | evote/client_request_handlers.go:129-167 | over a run of fair blocks the votes issued are exactly accounted for, so a tally never exceeds them |
| Accounting.AnswerAccounted | evote/client_request_handlers.go:116-186 | both for what OnGetVoteResult answers, with the end time `duration` seconds after the creating block |
| Accounting.CountsOnlyFall | evote/client_request_handlers.go:140-150 | once every new block is stamped at or past the end time no key's count ever grows |
| Accounting.ResultsOnlyFall | evote/client_request_handlers.go:140-181 | the same on results, absent 32-bit wrap |
| Accounting.LinksNameBlocks | evote/client_request_handlers.go:160-166 | in an accepted run a hash link leads on only from a hash that some block has |
| Accounting.TallyEnds | evote/client_request_handlers.go:152-167 | in an accepted run the last loop ends after one round unless a block has the hash of the voting |

## Left out

- evote/network.go, evote/config.go, validator.go and the ABCI server: HTTP, sockets, files, goroutines.
  The broadcast of a proposer's reward is a transaction that may arrive later.
- client/ and utils/: prompts, printing and demos.
- Keccak, secp256k1 and the protobuf wire format are uninterpreted; see `Crypto` for the laws required.
- The consensus engine: any sequence of ABCI calls is allowed. Info, SetOption, EndBlock and snapshots do nothing.
- The query dispatcher, OnGetTxsByHashes, OnGetUtxosByPkey and OnFaucet, which only wrap queries modelled here.
- GetTxsByPubKey (evote/database.go:524-561): a listing that nothing else in the core depends on.
- BuildMerkleTree over arrays (evote/block.go:9-18), which the application does not call.
- Go's append in evote/block.go:43 may write into spare capacity of a hash slice; slices here are values.
- Init-vote checks that the source itself leaves as comments (evote/tx_executor.go:250-253), HashLink
  continuation of votings beyond its CodeNotSupported answer, and stealth keys.
- The delete trigger and the triggers that forbid updates: no Go code deletes a row or updates one. The
  guard on output updates is a statement-level trigger, which sees no row and lets the mark through.
- Connection and query errors of the database, and with them CodeDatabaseFailed.
- Row order without ORDER BY is the order of insertion, and UNION drops no row, since the rows of one answer differ.
- A nil byte slice is the same as an empty one, in messages and in columns, so no NOT NULL column rejects one.
- Columns height, index and the serial ids are unbounded; value, vote type, duration, output index and
  timestamp have their column's range. The output index of an input is unbounded in the messages too,
  where the wire has 32 bits, so that parsing is taken to undo serializing for such bodies as well.
- The order in which Go visits a map: CreateTx takes its entries as a list in any order, and the tally
  lists its entries in some order.
- The timestamp of a block committed before any BeginBlock, which Go leaves undefined, is an arbitrary constant.
- Where the code never answers, the model answers `Endless`; it tells those cases by a bounded method,
  `LinksEnd`, that the source does not have.
- Vote accounting does not cover the one-vote type, which counts outputs and not values; GetVoteValue models it.
