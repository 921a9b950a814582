# A verified model of the three-node round-robin ledger

The repository is a demonstration blockchain: three nodes take turns to propose blocks, each block lists the IDs of
the transfers that its proposer took from its mempool, the other nodes fetch those transfers and apply them, and a
node that has fallen behind asks its peers for one block after another. This project models that program and proves
what it keeps over every run.

There are three layers.

* **Values.** `Ledgers`, `Processing` and `Chain` define one node as a value: account trie, transaction trie, block
  trie, the CURRENT and LAST records and the mempool, with the two transaction loops, block storage, proposing,
  handling a block and start-up as functions on it.
* **Objects.** `Blockchains` and `P2PNetworks` hold the classes `Mempool`, `Blockchain` and `P2PNetwork`. Their
  methods update fields step by step in the order of the program, with its loops and early returns, and every one
  is proved to end in the state that the value layer prescribes.
* **Runs.** `Protocol` puts three such nodes, numbered 1 to 3, on a network that may lose, duplicate and reorder
  messages, each of which travels on the connection between two nodes (a proposal goes to the one peer on whose
  connection it was made), lets them restart between operations, and lets a LAST handler read at one moment and
  write at another. `Agreement`, `Replication`, `Receipts`, `CatchUp`, `Progress` and `Liveness` prove what holds
  in all runs; `Scenarios` and `Divergence` exhibit the runs in which something does not. `Interleaving` goes one
  level down, to the single storage accesses of SaveBlockToTrie and of the LAST handlers beside it.

`Words`, `FiniteSums`, `Encoding` and `Transactions` supply uint64 arithmetic, sums over finite maps without an
order, and the text encodings. `Ledger.log`, `System.created` and `System.geneses` are history variables: they
record what was applied and created, and nothing reads them to decide anything.

## Assumptions

* Storage calls succeed and JSON round-trips. A trie is the finite map it stores; a stored root stands for that
  map, which is what an injective root hash amounts to.
* All nodes are honest and run this program with the same configuration. The repository's README.md:195 puts forged
  blocks out of scope.
* A transaction lookup by ID returns an issued transaction with that ID, or fails. `Net.catalog` is the map of all
  issued transactions by ID, so that IDs do not collide.
* `Ecdsa` holds two arbitrary functions in place of the curve arithmetic. An honest proposer's signature is well
  formed and recoverable for its height (`Acceptable`), as the check in HandleNewBlock demands; `CanSign`, used
  where a run is exhibited or a continuation is promised, says that such a text exists.
* Heights stay below 2^64 - 1. A turn is only taken while the next height is smaller than that.
* Nodes are configured with the indices 1, 2 and 3.

## What the proofs found

* The turn rule subtracts in uint64. Because 2^64 leaves remainder 1 modulo 3, height 1 also admits node 2 and
  height 2 also admits node 3. Both forks are reachable, and one block per height holds in all runs exactly for the
  heights from 3 on (`Scenarios.UniqueExactlyFromThree`).
* A block is only created above the LAST of its creator. So a second block 1 or 2 comes from a node that had not
  heard of the first (`Agreement.InformedInEveryRun`). Nodes share a genesis block only if their clocks showed the
  same second at their first start (`Agreement.GenesisInEveryRun`).
* HandleNewBlock looks up the key of node `height % 3 + 1`. At heights up to 2 that may be a node whose turn it
  was; from height 3 on it never is (`Chain.CheckedKeyIsAProposersIff`), and honest blocks pass only because the
  boolean result is dropped: any signature text that recovers to some key passes (`Chain.AcceptableIff`).
* Every node's ledger stays the meaning of its chain exactly in orderly runs
  (`Replication.ReplicationInEveryRunIff`). Two kinds of step are not orderly. A block that arrives too early, or
  whose lookups stop being answered, is applied as far as it goes and not stored; that breaks replication exactly
  when something in the applied part takes effect. A turn that stops at an entry with an unknown account, or that
  cannot sign, keeps what it applied before; that breaks replication exactly when something before that entry takes
  effect. In either way nodes with equal chains come to hold different balances (`Divergence.EarlyBlockDiverges`,
  `Divergence.FailedTurnDiverges`). A block left half applied is put right by a whole delivery if its transactions
  take effect in turn (`Replication.WholeDeliveryRestores`).
* A self-transfer mints: the recipient copy is saved over the debited sender copy. One transfer conserves the
  supply exactly when it is not a self-transfer of a positive amount and its recipient's balance does not wrap
  (`Ledgers.ApplyConservesIff`); over a run the supply moves by exactly the minted amounts if and only if nothing
  wraps (`Ledgers.SupplyMovesExactlyIff`).
* In orderly runs a block's list is a receipt: a node whose blocks at heights 1 and 2 no other node contradicts has
  applied exactly the transactions that its blocks list, in that order (`Receipts.ReceiptsInEveryRun`).
* The LAST handler reads and writes apart and without the mutex. LAST goes back exactly when a write of LAST comes
  after another access has written a later block since its read (`Interleaving.LastNeverGoesBackIff`); a handler
  that writes right after its read still lets a save do that (`Interleaving.IndivisibleIsNotEnough`), the mutex
  does not (`Interleaving.MutexMakesLastMonotone`). A node gets ahead of its LAST exactly when a handler writes a
  block older than one that the node has stored since the handler read (`Progress.OrderInEveryRunIff`); down at the
  single accesses the same is decided by the positions and heights of the schedule (`Interleaving.OrderKeptIff`).
* Such a write, together with one lost proposal message, can halt the chain for good
  (`Scenarios.StaleLastHaltsTheChain`). Which states are halted is decided exactly (`Liveness.HaltsForeverIff`),
  where halted means that no continuation raises the frontier, the highest CURRENT. It happens exactly when the
  frontier is at height 3 or more, the node whose turn comes next is below it, and for some `h` from 1 to below the
  frontier no LAST record, LAST answer or effective pending handler names a height above `h`, and no node below the
  frontier has been sent, or has asked a node that holds it for, the block after `h` or after its own CURRENT,
  whichever is higher; with `h` = 1, node 2 must also be past height 1, for otherwise it may propose a second block
  2 and so name height 2. A second block at a height 1 or 2 that is already filled does not count as growth. Where
  no node is ahead of its LAST the chain never halts (`Liveness.ChainNeverHalts`).
* The hash preimage of a transaction has no separators. For any sender, recipient and time, 1 coin to the
  recipient's name with a further digit 1 and 11 coins to the recipient share an ID
  (`Transactions.PreimageIsAmbiguous`), and admission, which never looks at the recipient, lets either in
  (`Chain.AmbiguousTransfersAdmitted`). One mempool takes only the first of them, since it refuses a second
  transaction under the same ID (`Processing.AddToPoolKeeps`); both can be under way in the mempools of different
  nodes. So the assumption above that IDs do not collide is one about the senders. Two transactions with one
  preimage are the same transfer exactly when the widths of both addresses and of the timestamp agree.

## Model

| member | source | states |
|---|---|---|
| `Ledgers.ApplyAt` | app/internal/blockchain/tx.go:478-495 | One transfer posts to each account exactly what its role says: plain debit, credit and nonce for two parties, and for a self-transfer the credit alone, with debit and nonce lost |
| `Ledgers.TransferPosts` | app/internal/blockchain/tx.go:478-495 | The same in plain numbers: amount off the sender and one onto its nonce, amount onto the recipient modulo 2^64, every other account as it was; a self-transfer only gains the amount |
| `Ledgers.ApplySettles` | app/internal/blockchain/tx.go:478-502 | If the accounts were the settlement of the stored transactions, an order-free sum over the trie, they still are after one more transfer, wrap-around included |
| `Ledgers.ApplySound` | app/internal/blockchain/tx.go:478-502 | One new transfer keeps accounts, transaction trie and history consistent: settled, distinct IDs, log equal to trie |
| `Ledgers.AppliesGrows` | app/internal/blockchain/tx.go:551-571 | A run of transfers stores exactly its own transactions, keeps every earlier entry, and no ID was stored before |
| `Ledgers.AppliesSound` | app/internal/blockchain/tx.go:512-582 | Any run of new, covered transfers keeps the ledger settled and the log equal to the trie |
| `Ledgers.EqualTransactionsEqualAccounts` | app/internal/blockchain/tx.go:443-582 | Two sound ledgers with equal transaction tries have equal accounts and applied the same transactions, whatever the order |
| `Ledgers.ApplySupply` | app/internal/blockchain/tx.go:478-495 | Exact effect of one transfer on the supply: plus the amount if it is a self-transfer, minus 2^64 if the recipient addition wraps |
| `Ledgers.ApplyConservesIff` | app/internal/blockchain/tx.go:478-495 | A transfer keeps the supply if and only if it is not a self-transfer of a positive amount and the recipient addition does not wrap; no bound on the supply |
| `Ledgers.SupplyModulo` | app/internal/blockchain/tx.go:478-495 | Over any run of transfers the supply moves by the self-transfer amounts modulo 2^64, with no bound on balances |
| `Ledgers.SupplyExactly` | app/internal/blockchain/tx.go:478-495 | While supply plus self-transfer amounts fits a uint64, the change is exact and no recipient addition wraps at any iteration |
| `Ledgers.SupplyMovesExactlyIff` | app/internal/blockchain/tx.go:478-495 | Over any run of transfers the supply moves by exactly the self-transfer amounts if and only if no recipient addition wraps at its turn |
| `Processing.ProposerApplies` | app/internal/blockchain/tx.go:455-506 | The proposer loop's effect is a run of new, covered transfers taken from the snapshot, and the returned list is their IDs in order, also on its error returns |
| `Processing.FollowerApplies` | app/internal/blockchain/tx.go:513-579 | The follower loop's effect is a run of new, covered transfers that a lookup offered, also on its error returns; the mempool only loses entries |
| `Processing.FollowerStopsIff` | app/internal/blockchain/tx.go:513-545 | For any list at all, a follower call fails if and only if the last ID it met does not decode, or is new and no lookup answers it or the answer names an unknown account |
| `Processing.FollowerPool` | app/internal/blockchain/tx.go:526-552 | After a follower call an entry has left the mempool if and only if its ID was met and its transaction is not stored: what took effect stays, what was refused goes |
| `Processing.AddToPoolKeeps` | app/internal/blockchain/tx.go:196-212 | Adding a transaction adds its ID, keeps every entry as it was and gives a fresh ID this transaction; of two transactions with one ID the first stays |
| `Processing.ReplayApplied` | app/internal/blockchain/tx.go:512-582 | Feeding the follower loop the IDs of any run of new, covered transfers repeats that run without error |
| `Processing.ReplayEquivalence` | app/internal/blockchain/tx.go:443-582 | For every iteration order of the mempool and even after an early error return, the proposer's ID list brings a follower with the same starting ledger and matching lookups to exactly the proposer's ledger |
| `Processing.ProposerPool` | app/internal/blockchain/tx.go:460-505 | Every entry met leaves the mempool unless it was in the trie when the call began |
| `Processing.MempoolPartition` | app/internal/blockchain/tx.go:443-509 | After a call without error: what stays was stored before, the returned IDs are duplicate-free and exactly the trie's new keys, and every other entry could not pay at its turn, for every iteration order |
| `Processing.RefusedMeansPoor` | app/internal/blockchain/tx.go:478-481 | An entry neither stored before nor returned failed its balance check in the ledger of its turn |
| `Processing.ProposerSupply` | app/internal/blockchain/tx.go:443-509 | One proposer call moves the supply by the self-transfers it applied: modulo 2^64 always, exactly and without wrapping under the bound, not at all without self-transfers |
| `Processing.FollowerSupply` | app/internal/blockchain/tx.go:511-582 | The same for one follower call |
| `Processing.SnapshotAdd` | app/internal/blockchain/tx.go:234-243 | One more entry under a fresh key extends any iteration of the mempool |
| `Encoding.BlockKeysNeverCollide` | app/internal/blockchain/chain.go:341 | block_%d keys of two heights are equal exactly when the heights are |
| `Encoding.DecimalInjective` | app/internal/blockchain/tx.go:52-64 | Unsigned decimal formatting is injective |
| `Encoding.HexEncode` | app/internal/blockchain/tx.go:201 | Encoding to 0x-hexadecimal and decoding returns the bytes |
| `Encoding.HexEncodeInjective` | app/internal/blockchain/tx.go:456 | Two IDs have the same mempool key exactly when they are equal |
| `Encoding.HexEncodeText` | app/internal/blockchain/tx.go:201 | The text is the prefix 0x and two lower-case digits for each byte |
| `Encoding.HexDecodeIff` | app/internal/blockchain/tx.go:329-332 | A text decodes if and only if it has the prefix and an even number of digits, both in either case |
| `Transactions.PreimageDeterminesTransferIff` | app/internal/blockchain/tx.go:52-64 | Equal hash preimages mean equal transfers exactly when the widths of both addresses and of the timestamp agree |
| `Transactions.PreimageIsAmbiguous` | app/internal/blockchain/tx.go:52-64 | For every sender, recipient and time, sending 1 to the recipient's name with a further digit 1 and sending 11 to the recipient have one preimage, hence one ID, and are different transfers |
| `Chain.AmbiguousTransfersAdmitted` | app/internal/p2pnetwork/p2pnetwork.go:285-311 | Either of those transfers is admitted whenever its sender signs it: admission does not depend on any account but the sender's |
| `Transactions.IdDeterminesTransfer` | app/internal/blockchain/tx.go:52-64 | For addresses and timestamps of one width and a hash without collision, equal IDs mean equal transfers and conversely |
| `Transactions.MessageDeterminesTransferIff` | app/internal/blockchain/tx.go:75 | Equal signing messages mean equal transfers exactly when the sender widths agree |
| `Transactions.MessageDeterminesTransfer` | app/internal/blockchain/tx.go:75 | Senders without an underscore make the signing message unambiguous in all four fields |
| `Chain.AdmittedIff` | app/internal/p2pnetwork/p2pnetwork.go:292-308 | A transaction is admitted if and only if its sender has an account, signature and public key decode, and the key recovered from the signature over the text from_to_amount_time is the account's |
| `Chain.OwnersSignatureIsAdmitted` | app/internal/blockchain/tx.go:89-120 | For encoded key and signature: admitted exactly when the signature over that text recovers to the account's key, so that the owner's is and another key's is not |
| `Chain.SignatureCoversTransfer` | app/internal/blockchain/tx.go:89-120 | If no signature recovers to one key for both messages, a signature moved from an admitted transaction to another of the same sender is accepted exactly when the transfer is the same |
| `Chain.TurnSchedule` | app/internal/blockchain/chain.go:430 | In uint64 arithmetic: from height 3 exactly node (h-1) mod 3 + 1 is eligible; height 1 admits exactly {1,2}, height 2 exactly {2,3} |
| `Chain.UniqueTurnIff` | app/internal/blockchain/chain.go:430 | A height has a single eligible node if and only if it is at least 3 |
| `Chain.TurnsRotate` | app/internal/blockchain/chain.go:430 | Any three consecutive heights from 3 on give every node its turn |
| `Chain.SaveBlockOnlyNext` | app/internal/blockchain/chain.go:289-369 | A block with an index above 0 is stored if and only if it is CURRENT + 1, then moving CURRENT and, if it is later, LAST; otherwise nothing changes |
| `Chain.AppendKeeps` | app/internal/blockchain/chain.go:298-369 | Storing a signed next block keeps the trie contiguous under the right keys and every stored block unchanged |
| `Chain.ProposeShape` | app/internal/blockchain/chain.go:453-504 | A proposal changes at most ledger and mempool, or puts exactly one eligible, linked block on top whose IDs and ledger are the proposer loop's |
| `Chain.DeclinesIff` | app/internal/blockchain/chain.go:425-433 | A node declines, before anything changes, if and only if its LAST is ahead of its CURRENT or it is not its turn, the turns written out for the three nodes; a block that comes out is above LAST and at CURRENT + 1 |
| `Chain.ProposedBlock` | app/internal/blockchain/chain.go:485-496 | Every field of the block that comes out: version and Merkle root of CURRENT, key text of the height, clock, signature and the listed IDs |
| `Chain.ProposeSucceeds` | app/internal/blockchain/chain.go:453-504 | On its turn, without a mempool or signing error, a node does create a block; off its turn nothing changes |
| `Chain.FindNode` | app/internal/blockchain/chain.go:599-606 | The result has the index asked for, and none is returned exactly if no node has it |
| `Chain.FindNodeIsFirst` | app/internal/blockchain/chain.go:599-606 | Of several nodes configured with one index the first is found |
| `Chain.EmptySignatureRejected` | app/internal/blockchain/chain.go:529-534 | No block passes with an empty signature |
| `Chain.VerdictIff` | app/internal/blockchain/chain.go:529-559 | Verification returns without error if and only if the key is on the curve and the signature recovers, and returns true if and only if it recovers to that key |
| `Chain.AcceptableIff` | app/internal/blockchain/chain.go:575-582 | A signature text passes the check of a block if and only if the first node configured under 1, 2 or 3, as the height leaves 0, 1 or 2 modulo 3, has a key on the curve and the text recovers to any key at all over block_height |
| `Chain.ThreeNodesCheck` | app/internal/blockchain/chain.go:575-582 | The same for a configuration of three nodes |
| `Chain.CheckedKeyIsAProposersIff` | app/internal/blockchain/chain.go:575-582 | The node whose key is checked, as `Chain.AcceptableIff` has it, is one whose turn it was for some eligible proposer exactly at heights up to 2, and for none from height 3 on |
| `Chain.HandleShape` | app/internal/blockchain/chain.go:562-596 | Handling a block leaves the chain as it is or puts exactly that block, with a non-empty signature, on top; the ledger is the old one or the follower loop's |
| `Chain.HandledIff` | app/internal/blockchain/chain.go:562-596 | What becomes of any block: nothing changes if its height is stored and signed or its signature fails the check; otherwise its transactions are applied, and it is stored if and only if they go through and it is CURRENT + 1 |
| `Chain.NextBlockStoredIff` | app/internal/blockchain/chain.go:562-596 | With three nodes configured, the next block with its lookups answered is stored if and only if its signature over block_height recovers and the key of the node looked up is on the curve; otherwise nothing changes |
| `Chain.HandleSucceeds` | app/internal/blockchain/chain.go:562-596 | An acceptable block at CURRENT + 1 whose transactions go through is stored |
| `Chain.OldBlockIsIgnored` | app/internal/blockchain/chain.go:566-573 | A block at or below CURRENT leaves the whole node state unchanged |
| `Chain.EarlyBlockAppliedNotStored` | app/internal/blockchain/chain.go:584-592 | A block beyond CURRENT + 1 is refused, but if its signature text is acceptable its transactions have been applied |
| `Chain.RestartIdentity` | app/internal/blockchain/chain.go:86-196 | Init on the database of a running node gives back chain, ledger, CURRENT and LAST whatever the clock says, with an empty mempool, and resets no test account |
| `Chain.FirstBoot` | app/internal/blockchain/chain.go:92-141 | The first start gives a contiguous one-block chain, CURRENT = LAST = genesis, a sound empty ledger, and a supply of at most three test balances |
| `Chain.TestAccounts` | app/internal/blockchain/account.go:124-186 | Each test key gets the account of its address with balance 1000, that key and nonce 0, unless there is one already, and nothing else changes |
| `Chain.FirstStart` | app/internal/blockchain/chain.go:92-115 | The first start in full: the genesis block with every field, its time the clock, so that starts at different times make different genesis blocks; exactly the test accounts, and nothing else |
| `Chain.TestAccountSpends` | app/internal/p2pnetwork/p2pnetwork.go:292-308 | After the first start a transfer of a test account is admitted exactly when that account's key signed it |
| `Blockchains.Mempool.constructor` | app/internal/blockchain/tx.go:189-193 | A new mempool is empty |
| `Blockchains.Mempool.AddTransaction` | app/internal/blockchain/tx.go:196-211 | An ID already in the mempool is refused and its entry kept; otherwise the entry is added under its hexadecimal key; every other entry stays |
| `Blockchains.Mempool.GetTransaction` | app/internal/blockchain/tx.go:214-223 | The entry under the ID, or none |
| `Blockchains.Mempool.RemoveTransaction` | app/internal/blockchain/tx.go:226-231 | Exactly that key is gone |
| `Blockchains.Mempool.GetAllTransactions` | app/internal/blockchain/tx.go:234-243 | Every entry once, in some order |
| `Blockchains.Blockchain.constructor` | app/internal/blockchain/chain.go:63-68 | Before Init the database is empty |
| `Blockchains.Blockchain.StoredIsState` | app/internal/blockchain/chain.go:289-369 | Between operations the database determines the live state, as a restart needs |
| `Blockchains.Blockchain.SaveBlockToTrie` | app/internal/blockchain/chain.go:289-369 | Updating field by field ends in the value-level save, or in the error return with nothing changed; the root is written exactly on success |
| `Blockchains.Blockchain.GetBlockFromTrie` | app/internal/blockchain/chain.go:394-407 | The block under the key, or none |
| `Blockchains.Blockchain.CheckProposalCondition` | app/internal/blockchain/chain.go:410-450 | True exactly when LAST is not ahead of CURRENT and the wrapped turn test holds, for nodes 1 to 3 the turn written out |
| `Blockchains.Blockchain.ProposeNewBlock` | app/internal/blockchain/chain.go:453-504 | For some iteration order of the mempool, state and result are those of the value-level proposal |
| `Blockchains.Blockchain.HandleNewBlock` | app/internal/blockchain/chain.go:562-596 | State and error are those of the value-level handler, transactions applied before the index check |
| `Blockchains.Blockchain.GetNodeConfigByIndex` | app/internal/blockchain/chain.go:599-606 | The first node with the index, or none |
| `Blockchains.Blockchain.GetAccountFromTrie` | app/internal/blockchain/account.go:107-121 | The account under the address, or none |
| `Blockchains.Blockchain.SaveAccountToTrie` | app/internal/blockchain/account.go:69-104 | Exactly the account's own address is updated and the root written |
| `Blockchains.Blockchain.InitializeTestAccounts` | app/internal/blockchain/account.go:124-186 | Only missing test accounts are created; existing ones keep balance and nonce |
| `Blockchains.Blockchain.Init` | app/internal/blockchain/chain.go:71-197 | From any database, empty or left by an earlier run, the node starts in the value-level boot state with a new mempool |
| `Blockchains.Blockchain.OpenChain` | app/internal/blockchain/chain.go:86-124 | A missing root makes a genesis block now; otherwise the stored trie, CURRENT and LAST are kept |
| `Blockchains.Blockchain.OpenLedger` | app/internal/blockchain/chain.go:126-152 | The ledger tries are those the stored roots commit to, empty without a root, with any missing test account added |
| `Blockchains.Blockchain.SaveTransactionToTrie` | app/internal/blockchain/tx.go:123-153 | Exactly this transaction is stored under its ID, the root written and the history extended |
| `Blockchains.Blockchain.LookUpTransaction` | app/internal/blockchain/tx.go:321-397 | Mempool first, then the transaction trie, then the remote answers |
| `Blockchains.Blockchain.ProcessMempoolTransactions` | app/internal/blockchain/tx.go:443-509 | The loop over a snapshot, saving sender before recipient, ends with the accounts, tries, mempool, ID list and error of the proposer loop for that order |
| `Blockchains.Blockchain.ProcessTransactionsByIDs` | app/internal/blockchain/tx.go:511-582 | The loop over the IDs ends with the accounts, tries, mempool and error of the follower loop |
| `P2PNetworks.P2PNetwork.HandleBlockResponse` | app/internal/p2pnetwork/p2pnetwork.go:348-356 | A served block takes the node where the delivery step of any run takes it |
| `P2PNetworks.P2PNetwork.HandleBlockProposalRequest` | app/internal/p2pnetwork/p2pnetwork.go:385-394 | So does a proposed block |
| `P2PNetworks.P2PNetwork.HandleLastBlockResponse` | app/internal/p2pnetwork/p2pnetwork.go:358-373 | Undisturbed, LAST becomes the later of the two blocks, which is what the read step and the write step of a run do one after the other |
| `P2PNetworks.P2PNetwork.ProposeTick` | app/internal/p2pnetwork/p2pnetwork.go:142-165 | The node ends where the turn step of any run takes it, and a block is sent exactly when one was created, namely that block |
| `P2PNetworks.P2PNetwork.RequestTick` | app/internal/p2pnetwork/p2pnetwork.go:167-201 | block_CURRENT+1 is asked for exactly while CURRENT is below LAST, as the request step of any run does |
| `P2PNetworks.P2PNetwork.ServeBlock` | app/internal/p2pnetwork/p2pnetwork.go:216-236 | The stored block is sent, as the serving step of any run does, or nothing |
| `P2PNetworks.P2PNetwork.HandleTransaction` | app/internal/p2pnetwork/p2pnetwork.go:285-317 | A transaction enters the mempool, under a new ID, exactly when its sender has an account whose key is the one recovered from its signature over the four fields |
| `Protocol.InitialInv` | app/internal/blockchain/chain.go:92-124 | Three nodes that start with their own genesis satisfy the invariant |
| `Protocol.ProposerLoopInv` | app/internal/blockchain/tx.go:443-509 | A proposer call keeps ledger and mempool invariants, only extends the history, and lists issued transactions of known accounts |
| `Protocol.FollowerLoopInv` | app/internal/blockchain/tx.go:511-582 | The same for a follower call on any ID list |
| `Protocol.TakeTurnInv` | app/internal/blockchain/chain.go:453-504 | A turn, successful or failed, keeps the invariant: what it creates is well formed, linked and held by its creator |
| `Protocol.HandleBlockInv` | app/internal/blockchain/chain.go:562-596 | A delivery of any message in the network, old, next or early, keeps the invariant |
| `Protocol.RestartInv` | app/internal/blockchain/chain.go:71-197 | A restart keeps the invariant and loses the mempool and the handlers in flight, and nothing else |
| `Protocol.LastInv` | app/internal/p2pnetwork/p2pnetwork.go:358-373 | Reading and writing LAST as separate or joined steps keeps the invariant |
| `Protocol.StepInv` | app/internal/p2pnetwork/p2pnetwork.go:142-394 | Every step of the protocol keeps the invariant |
| `Protocol.RunInv` | app/internal/p2pnetwork/p2pnetwork.go:142-394 | Every run keeps the invariant |
| `Agreement.OneBlockPerHeight` | app/internal/blockchain/chain.go:409-504 | From height 3 on two created blocks of one height are the same block |
| `Agreement.AgreementInEveryRun` | app/internal/blockchain/chain.go:409-596 | In every run with loss, duplication and reordering: at most one block is created per height from 3 on, and nodes that store such a height store the same block |
| `Agreement.NothingPastNextTurn` | app/internal/blockchain/chain.go:425-433 | While a node has not filled its own next turn, no block exists anywhere at or above it |
| `Agreement.LagBoundedInEveryRun` | app/internal/blockchain/chain.go:425-433 | Every created block and every LAST is at most CURRENT + 4 of any node, and at most CURRENT + 2 once CURRENT is 2 or more |
| `Agreement.FrontierIsHighestCreated` | app/internal/p2pnetwork/p2pnetwork.go:358-373 | The highest CURRENT is the highest created height, and no LAST is above it |
| `Agreement.NoDeadlock` | app/internal/p2pnetwork/p2pnetwork.go:167-236 | In every state of the invariant a node is behind and a peer holds the block it needs, or all are level and somebody may propose, exactly one node from frontier 2 on |
| `Agreement.ChainInEveryRun` | app/internal/blockchain/chain.go:289-369 | In every run a node's trie is exactly block_0 to block_CURRENT, signed above genesis and linked, and later states keep every stored block, CURRENT and history |
| `Agreement.InformedInEveryRun` | app/internal/blockchain/chain.go:425-433 | In every run a node creates a block only above its own LAST and in its turn, and at a height that has a block already only at heights 1 and 2, not having heard of that block |
| `Agreement.CheckedInEveryRun` | app/internal/blockchain/chain.go:575-582 | In every run each stored block above genesis carries a signature that passes the check for its height |
| `Agreement.GenesisInEveryRun` | app/internal/blockchain/chain.go:99-107 | In every run each node keeps the genesis block with the time of its own first start, so that nodes first started at different times never share height 0 |
| `Agreement.InvLinked` | app/internal/blockchain/chain.go:485-495 | Every stored block names the Merkle root of the one below it and carries the genesis version, though acceptance checks neither |
| `Agreement.ExactlyOnceInEveryRun` | app/internal/blockchain/tx.go:455-528 | In every run the history of a node repeats no ID, equals the transaction trie, yields the ledger step by step, and the accounts settle it |
| `Agreement.SameTransactionsSameAccounts` | app/internal/blockchain/tx.go:443-582 | Two reachable nodes with equal transaction tries have equal accounts |
| `Agreement.SupplyInEveryRun` | app/internal/blockchain/tx.go:478-571 | In every run a node's supply is the initial one plus its applied self-transfers under the uint64 bound, constant and never wrapping if no self-transfer is issued |
| `Processing.ProposerFaultsIff` | app/internal/blockchain/tx.go:455-476 | A proposer call fails if and only if its snapshot holds a new entry that names an unknown account |
| `Processing.NothingListedIff` | app/internal/blockchain/tx.go:455-506 | A proposer call, failing or not, applies nothing if and only if no entry before the first such entry would take effect at once |
| `Replication.ProposerIsReplay` | app/internal/blockchain/tx.go:443-509 | The proposer's ledger is the reference meaning of the list it returns |
| `Replication.FollowerIsReplay` | app/internal/blockchain/tx.go:511-582 | On a created block the follower's ledger is the reference meaning of the IDs before the first unanswered lookup, and the call fails if and only if there is one |
| `Replication.TurnFailsIff` | app/internal/blockchain/chain.go:453-499 | A turn that is due fails if and only if the snapshot holds a new entry with an unknown account or signing fails |
| `Replication.TurnReplicatesIff` | app/internal/blockchain/chain.go:453-504 | A turn keeps a ledger the meaning of its chain if and only if it goes through, or nothing would be applied before the entry it stops at |
| `Replication.DeliveryReplicatesIff` | app/internal/blockchain/chain.go:562-596 | A delivery does so if and only if the block is old, or is stored, or nothing in it would take effect before a lookup stays unanswered |
| `Replication.StepReplicatesIff` | app/internal/blockchain/chain.go:453-596 | From a state in which all ledgers are the meaning of their chains exactly the orderly steps lead to another such state |
| `Replication.ReplicationInEveryRunIff` | app/internal/blockchain/chain.go:453-596 | In every run all ledgers are the meaning of their chains in all its states if and only if all its steps are orderly |
| `Replication.StateMachineReplication` | app/internal/blockchain/chain.go:453-596 | In every orderly run two nodes at one CURRENT whose transactions agree at heights 1 and 2 have the same ledger, whichever blocks each proposed or received |
| `Replication.ReplayIdleIff` | app/internal/blockchain/tx.go:520-549 | An ID list has no effect exactly when none of its transactions would take effect at once |
| `Replication.UnstoredBlockReplicatesIff` | app/internal/blockchain/chain.go:584-592 | After a created block that is not stored, too early or with a lookup unanswered, a ledger is still the meaning of its chain exactly when nothing listed before the first unanswered lookup would take effect at once |
| `Replication.EarlyBlockReplicatesIff` | app/internal/blockchain/chain.go:584-592 | The same for a block that overtook its predecessor with all lookups answered |
| `Replication.RedeliveryRestores` | app/internal/blockchain/tx.go:511-582 | Where a block's transactions take effect in turn, applying some of them first and the whole list afterwards ends where the whole list alone does |
| `Replication.WholeDeliveryRestores` | app/internal/blockchain/chain.go:562-596 | A next block left half applied and delivered whole later leads to the ledger and chain of one whole delivery, if its transactions take effect in turn |
| `Replication.FailedTurnReplicatesIff` | app/internal/blockchain/chain.go:468-499 | After a turn that failed, a ledger is still the meaning of its chain exactly when no entry before the first one that is new and names an unknown account would have taken effect at once |
| `Receipts.ReceiptsInEveryRun` | app/internal/blockchain/chain.go:453-596 | In every orderly run, a node whose transactions at heights 1 and 2 no other node contradicts has applied exactly the IDs that its blocks 1 to CURRENT list, in that order; its transaction trie is the set of them and none is listed twice |
| `CatchUp.TriesCover` | app/internal/p2pnetwork/p2pnetwork.go:319-346 | Every transaction listed in a created block is in the transaction trie of some node, so that the nodes can answer every lookup |
| `CatchUp.RoundAdvances` | app/internal/p2pnetwork/p2pnetwork.go:167-256 | One round of request, answer and handling puts exactly the peer's next block on top and changes nothing below, nor LAST, nor any other node |
| `CatchUp.CatchUpTerminates` | app/internal/p2pnetwork/p2pnetwork.go:167-256 | A node reaches its LAST from a peer that holds blocks through it in exactly LAST - CURRENT rounds, with copies of the peer's blocks and its own older ones unchanged |
| `Progress.OrderInEveryRunIff` | app/internal/p2pnetwork/p2pnetwork.go:358-373 | In every run, handlers in flight, no node is ever ahead of its LAST if and only if no handler writes a block that is older than one the node has stored since the handler read |
| `Progress.UndisturbedHandler` | app/internal/p2pnetwork/p2pnetwork.go:358-373 | A read of LAST and the write right after it store the later of the two blocks |
| `Progress.LastOrderedInEveryAtomicRun` | app/internal/p2pnetwork/p2pnetwork.go:358-373 | If every handler writes right after it has read, CURRENT <= LAST in every run and neither index goes back |
| `Progress.FaultDropsEntry` | app/internal/blockchain/tx.go:465-475 | A proposer call that fails on an unknown account leaves a strictly smaller mempool |
| `Progress.ProposeUntilDone` | app/internal/blockchain/chain.go:453-504 | A node whose turn it is creates exactly one block after finitely many attempts, whatever is in its mempool and whatever the clock says |
| `Progress.CanSignIff` | app/internal/blockchain/chain.go:507-559 | The assumption that nodes can sign holds, for three nodes with keys on the curve, if and only if for every height some signature of its key text recovers to a key |
| `Progress.LearnLast` | app/internal/p2pnetwork/p2pnetwork.go:126-140 | A node can ask a peer for LAST and take the answer in by a read and a write, with other handlers in flight; nothing but its LAST changes |
| `Progress.Follow` | app/internal/p2pnetwork/p2pnetwork.go:126-256 | A node can learn a peer's LAST and reach that height, with no other node changed and every lookup answered from the transaction tries of the three nodes |
| `Liveness.HaltedForever` | app/internal/p2pnetwork/p2pnetwork.go:142-373 | From a halted state no continuation moves the frontier |
| `Liveness.NotHaltedGrows` | app/internal/p2pnetwork/p2pnetwork.go:126-373 | From every other state some continuation moves the frontier up, using only messages that their receivers can use and lookups that the nodes' tries answer |
| `Liveness.HaltsForeverIff` | app/internal/p2pnetwork/p2pnetwork.go:126-373 | For every run, LAST handlers as they are: no continuation moves the frontier if and only if the state reached is halted, a condition on LAST records, messages and pending handlers |
| `Liveness.ChainNeverHalts` | app/internal/p2pnetwork/p2pnetwork.go:126-274 | From every reached state in which no node is ahead of its LAST, with handlers in flight and any messages lost, the nodes can meet at the frontier and create the next block, with lookups answered from their tries |
| `Scenarios.ForkAtHeightOne` | app/internal/blockchain/chain.go:430 | A run in which nodes 1 and 2 both create block 1 |
| `Scenarios.ForkAtHeightTwo` | app/internal/blockchain/chain.go:430 | A run in which nodes 2 and 3 both create block 2 |
| `Scenarios.UniqueExactlyFromThree` | app/internal/blockchain/chain.go:430 | A height has at most one created block in all runs if and only if it is at least 3 |
| `Divergence.EarlyBlockDiverges` | app/internal/blockchain/chain.go:584-592 | A legal run, all lookups answered and no turn failing, after which two nodes hold equal blocks 1 to 3 but different balances and transaction tries, because one block overtook its predecessor |
| `Divergence.FailedTurnDiverges` | app/internal/blockchain/chain.go:468-499 | A legal run in which a turn applies a transfer and stops at the next entry, after which two nodes hold the same block 1 but different balances and transaction tries |
| `Divergence.EarlyDelivery` | app/internal/blockchain/chain.go:584-592 | A created block delivered too early changes the ledger by its reference meaning and no record of the chain |
| `Scenarios.StaleLastHaltsTheChain` | app/internal/p2pnetwork/p2pnetwork.go:361-368 | A legal run, with a LAST write that overtakes a proposal and one lost message, that ends in a halted state: in every continuation the frontier stays at 3 and nothing is created |
| `Interleaving.AccessSafe` | app/internal/blockchain/chain.go:289-369 | Each single access of a save or a LAST handler keeps trie and CURRENT contiguous and LAST a genesis or created block |
| `Interleaving.InterleavingSafe` | app/internal/p2pnetwork/p2pnetwork.go:358-373 | The same over every interleaving of saves with any number of unlocked handlers; nothing stored changes and CURRENT is monotone |
| `Interleaving.IndivisibleHandlersKeepOrder` | app/internal/p2pnetwork/p2pnetwork.go:358-373 | If every handler writes right after it has read, CURRENT <= LAST holds outside a save |
| `Interleaving.LastNeverGoesBackIff` | app/internal/p2pnetwork/p2pnetwork.go:361-368 | From an idle node LAST never goes back over a run if and only if no access writes LAST after another access, between its own read and its write, has written a later block; the condition is on the schedule alone |
| `Interleaving.OneHandlerBesideOneSave` | app/internal/blockchain/chain.go:296-317 | With one save and one handler LAST goes back exactly when the handler writes between the save's read and write of LAST, with a later block |
| `Interleaving.OrderKeptIff` | app/internal/p2pnetwork/p2pnetwork.go:358-373 | From an idle node CURRENT stays at or below LAST outside a save if and only if no handler writes a block later than LAST was at its read after a still later block was saved since, other than in the middle of a save, and no save leaves LAST alone that has gone below its block since it read; the condition is on positions and heights of the schedule |
| `Interleaving.OrderUpTo` | app/internal/p2pnetwork/p2pnetwork.go:358-373 | The same from any state, saves and handlers under way, with the condition on what each access finds in memory |
| `Interleaving.MutexMakesLastMonotone` | app/internal/p2pnetwork/p2pnetwork.go:358-373 | If no access writes LAST between another's read and write, as with the mutex, LAST never goes back |
| `Interleaving.IndivisibleIsNotEnough` | app/internal/blockchain/chain.go:296-317 | Without the mutex an indivisible handler still lets LAST go back, by a save that read it earlier |
| `Interleaving.SplitHandlerBreaksOrder` | app/internal/p2pnetwork/p2pnetwork.go:361-368 | With read and write apart, some interleaving from an ordered idle state ends with CURRENT above LAST if and only if there are blocks for every height from CURRENT through LAST + 2 |
| `Interleaving.UndisturbedSaveIsSaveBlock` | app/internal/blockchain/chain.go:289-369 | Without interference the single accesses add up to the value-level save, stored or refused |
| `Interleaving.UndisturbedHandlerIsLater` | app/internal/p2pnetwork/p2pnetwork.go:361-368 | Without interference a handler stores the later of the two blocks |

## Left out

- `bls-demo/`: signing, aggregation and threshold recovery happen inside libraries.
- HTTP server, command line, Docker and configuration files, and the float64 amounts of incoming requests: wiring, no ledger logic.
- ECDSA, Keccak and SHA-256 internals: arbitrary functions, with collision-freedom assumed where a statement says so.
- LevelDB, Merkle-Patricia trie, JSON and RLP internals, storage errors, crashes in the middle of an operation, and the retry loop of RestoreTrieFromRootHash: a trie is a finite map whose writes succeed. The error returns that only these can cause are therefore absent.
- RequestTransaction with its channels and timeouts, BroadcastTransaction, peer maps and reconnection: a call that handles a block is given the map of remote answers it will get, and an ID outside that map is the error return.
- GetTransactionByID returning neither a transaction nor an error, when the peer request fails (app/internal/blockchain/tx.go:390): the follower loop then dereferences nil, and such runs are excluded.
- Serving transaction requests to peers: the remote answers above stand for it.
- BlockProposalResponseMsg: handled like a LAST response by the program, but never sent by it.
- Byzantine nodes and forged blocks: out of scope by the repository's own statement.
- TransferBalance, RetrieveLastBlock, VerifyTransaction, Mempool.GetSize and other simple getters, printing and logging: easy members only.
- Stored pointers: a mempool entry and an account are values here, so two references to one transaction object are not distinguished. The program does not change a transaction after it is created.
- A transaction entering the mempool while the proposer loop runs: the loop works on its snapshot and removes single keys, so that the entry is in the mempool afterwards; the model adds it before or after the call.
- Protocol.StepInv: places the read and the write of a LAST handler between operations that hold the mutex; accesses that fall inside a save are covered for one node by Interleaving.InterleavingSafe.
