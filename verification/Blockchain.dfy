// The node as the program holds it: an object whose methods update tries, database entries and
// mempool step by step. Every method is tied to the value-level functions of the other modules.

module Blockchains {
  import opened Options
  import opened Words
  import opened Encoding
  import opened Transactions
  import opened Ledgers
  import opened Processing
  import opened Chain

  class Mempool {
    var transactions: Pool

    ghost predicate Valid()
      reads this
    {
      PoolKeyed(transactions)
    }

    constructor ()
      ensures Valid() && transactions == map[]
    {
      transactions := map[];
    }

    method AddTransaction(t: Transaction) returns (added: bool)
      requires Valid()
      modifies this
      ensures Valid() && transactions == AddToPool(old(transactions), t)
      ensures transactions.Keys == old(transactions).Keys + {HexEncode(t.id)}
      ensures forall k :: k in old(transactions) ==> transactions[k] == old(transactions)[k]
      ensures added <==> HexEncode(t.id) !in old(transactions)
      ensures added ==> transactions[HexEncode(t.id)] == t
    {
      var txID := HexEncode(t.id);
      if txID in transactions {
        return false;
      }
      transactions := transactions[txID := t];
      return true;
    }

    method GetTransaction(txID: string) returns (t: Option<Transaction>)
      ensures t == if txID in transactions then Some(transactions[txID]) else None
    {
      if txID in transactions {
        return Some(transactions[txID]);
      }
      return None;
    }

    method RemoveTransaction(txID: string)
      requires Valid()
      modifies this
      ensures Valid() && transactions == old(transactions) - {txID}
    {
      transactions := transactions - {txID};
    }

    /** The entries in whatever order the map yields them. */
    method GetAllTransactions() returns (txs: seq<Transaction>)
      requires Valid()
      ensures IsSnapshot(transactions, txs) && |txs| == |transactions|
    {
      hide HexEncode, IsSnapshot, PoolKeyed, PoolShrinks;
      txs := [];
      var rest := transactions;
      NothingTaken(transactions);
      while rest.Keys != {}
        invariant PoolShrinks(transactions, rest) && IsSnapshot(transactions - rest.Keys, txs)
        invariant |txs| + |rest| == |transactions|
        decreases rest.Keys
      {
        var k :| k in rest.Keys;
        TakeOut(transactions, rest, k, txs);
        txs := txs + [rest[k]];
        rest := rest - {k};
      }
      assert transactions - rest.Keys == transactions;
    }
  }

  lemma NothingTaken(all: Pool)
    ensures IsSnapshot(all - all.Keys, []) && PoolShrinks(all, all)
  {
    assert all - all.Keys == map[];
  }

  lemma TakeOut(all: Pool, rest: Pool, k: string, txs: seq<Transaction>)
    requires PoolKeyed(all) && PoolShrinks(all, rest) && k in rest
    requires IsSnapshot(all - rest.Keys, txs)
    ensures IsSnapshot(all - (rest - {k}).Keys, txs + [rest[k]]) && PoolShrinks(all, rest - {k})
    ensures |rest - {k}| == |rest| - 1
  {
    hide HexEncode, IsSnapshot;
    var done := all - rest.Keys;
    SnapshotAdd(done, txs, rest[k]);
    assert (rest - {k}).Keys == rest.Keys - {k};
    assert all - (rest - {k}).Keys == done[k := rest[k]];
  }

  class Blockchain {
    // The tries in use. A trie is the finite map it stores.
    var tr: map<string, Block>
    var txTrie: map<TxId, Transaction>
    var accTrie: map<string, Account>
    var mempool: Mempool

    // LevelDB entries. A root hash stands for the trie it commits to.
    var rootHash: Option<map<string, Block>>
    var txRootHash: Option<map<TxId, Transaction>>
    var accRootHash: Option<map<string, Account>>
    var currentBlock: Option<Block>
    var lastBlock: Option<Block>

    // The transactions that took effect, oldest first.
    ghost var log: seq<Transaction>

    const env: Env
    const index: Word
    const addressOf: string -> string

    /** Before Init: an empty database. */
    constructor (env: Env, index: Word, addressOf: string -> string)
      ensures this.env == env && this.index == index && this.addressOf == addressOf
      ensures Saved() == EMPTY_STORE && fresh(mempool)
    {
      this.env, this.index, this.addressOf := env, index, addressOf;
      tr, txTrie, accTrie := map[], map[], map[];
      mempool := new Mempool();
      rootHash, txRootHash, accRootHash, currentBlock, lastBlock := None, None, None, None, None;
      log := [];
    }

    /** What the database holds. */
    ghost function Saved(): Store
      reads this
    {
      Store(rootHash, txRootHash, accRootHash, currentBlock, lastBlock, log)
    }

    ghost function Books(): Ledger
      reads this
    {
      Ledger(accTrie, txTrie, log)
    }

    /** After Init and between operations the database is up to date with the tries. */
    ghost predicate Valid()
      reads this, mempool
    {
      && mempool.Valid()
      && rootHash == Some(tr) && currentBlock.Some? && lastBlock.Some? && LedgerSaved()
    }

    ghost predicate LedgerSaved()
      reads this
    {
      (if txRootHash.Some? then txRootHash.value == txTrie else txTrie == map[]) && accRootHash == Some(accTrie)
    }

    ghost function State(): Node
      reads this, mempool
      requires currentBlock.Some? && lastBlock.Some?
    {
      Node(tr, currentBlock.value, lastBlock.value, Books(), mempool.transactions)
    }

    lemma StoredIsState()
      requires Valid()
      ensures Persists(Saved(), State())
    {
    }

    // ---------- chain.go ----------

    method GetBlockFromTrie(key: string) returns (b: Option<Block>)
      ensures b == if key in tr then Some(tr[key]) else None
    {
      if key in tr {
        return Some(tr[key]);
      }
      return None;
    }

    method SaveCurrentBlock(b: Block)
      modifies this`currentBlock
      ensures currentBlock == Some(b)
    {
      currentBlock := Some(b);
    }

    method SaveLastBlock(b: Block)
      modifies this`lastBlock
      ensures lastBlock == Some(b)
    {
      lastBlock := Some(b);
    }

    method SaveBlockToTrie(b: Block) returns (failure: Option<Failure>)
      modifies this`tr, this`rootHash, this`currentBlock, this`lastBlock
      ensures b.index > 0 && old(currentBlock.None? || lastBlock.None?) ==>
                failure == Some(NotStarted) && tr == old(tr) &&
                currentBlock == old(currentBlock) && lastBlock == old(lastBlock)
      ensures old(currentBlock.Some? && lastBlock.Some?) ==>
                currentBlock.Some? && lastBlock.Some? && (State(), failure) == SaveBlock(old(State()), b)
      ensures b.index == 0 ==>
                failure == None && currentBlock == lastBlock == Some(b) && tr == old(tr)[BlockKey(0) := b]
      ensures if failure == None then rootHash == Some(tr) else rootHash == old(rootHash) && tr == old(tr)
    {
      hide BlockKey;
      if b.index > 0 {
        if currentBlock.None? || lastBlock.None? {
          return Some(NotStarted);
        }
        var current, last := currentBlock.value, lastBlock.value;
        if b.index != Add64(current.index, 1) {
          return Some(BadIndex);
        }
        SaveCurrentBlock(b);
        if b.index > last.index {
          SaveLastBlock(b);
        }
      } else {
        SaveCurrentBlock(b);
        SaveLastBlock(b);
      }
      tr := tr[BlockKey(b.index) := b];
      rootHash := Some(tr);
      return None;
    }

    method CheckProposalCondition() returns (ok: bool)
      requires Valid()
      ensures ok == CanPropose(State(), index)
      ensures State().current.index < TWO_64 - 1 && 1 <= index <= 3 ==>
                (ok <==> State().last.index <= State().current.index && TurnOf(index, State().current.index + 1))
    {
      if currentBlock.value.index < TWO_64 - 1 {
        TurnSchedule(Add64(currentBlock.value.index, 1));
      }
      if currentBlock.value.index < lastBlock.value.index {
        return false;
      }
      if Sub64(Add64(currentBlock.value.index, 1), index) % 3 != 0 {
        return false;
      }
      return true;
    }

    method ProposeNewBlock(signature: Option<string>, time: Word) returns (p: Proposal, ghost order: seq<Transaction>)
      requires Valid()
      modifies this, mempool
      ensures Valid() && mempool == old(mempool)
      ensures IsSnapshot(old(mempool.transactions), order)
      ensures (State(), p) == Propose(old(State()), index, order, signature, time)
      ensures old(currentBlock.value.index) < TWO_64 - 1 && p.Proposed? ==> p.block.index > old(lastBlock.value.index)
    {
      hide ProposerLoop, BlockKey, IsSnapshot;
      var current := currentBlock.value;
      var ok := CheckProposalCondition();
      if !ok {
        var txs := mempool.GetAllTransactions();
        return Declined(NotEligible), txs;
      }
      var processed, fault;
      processed, fault, order := ProcessMempoolTransactions();
      if fault.Some? {
        p := Declined(LedgerFault(fault.value));
        return;
      }
      if signature.None? {
        p := Declined(SigningFailed);
        return;
      }
      var header := BlockHeader(current.header.version, current.header.merkleRoot, BlockKey(Add64(current.index, 1)),
                                "", "", time, signature.value);
      var newBlock := Block(header, Add64(current.index, 1), processed);
      var failure := SaveBlockToTrie(newBlock);
      p := if failure == None then Proposed(newBlock) else Declined(BadIndex);
    }

    method HandleNewBlock(b: Block, remote: Pool) returns (failure: Option<Failure>)
      requires Valid()
      modifies this, mempool
      ensures Valid() && mempool == old(mempool)
      ensures (State(), failure) == Chain.HandleNewBlock(env, old(State()), b, remote)
    {
      hide FollowerLoop, BlockKey, VerifySignature, FindNode, SaveBlock;
      if b.index == 0 {
        return None;
      }
      var existing := GetBlockFromTrie(BlockKey(b.index));
      if existing.Some? && existing.value.header.signature != "" {
        return Some(BlockExists);
      }
      var node := GetNodeConfigByIndex(b.index % 3 + 1);
      if node.None? {
        return Some(NoSuchNode);
      }
      var verdict := VerifySignature(env.ecdsa, "0x04" + node.value.publicKey, BlockKey(b.index), b.header.signature);
      if verdict.None? {
        return Some(BadSignature);
      }
      var fault := ProcessTransactionsByIDs(b.txns, remote);
      if fault.Some? {
        return Some(LedgerFault(fault.value));
      }
      failure := SaveBlockToTrie(b);
    }

    method GetNodeConfigByIndex(index: int) returns (node: Option<NodeConfig>)
      ensures node == FindNode(env.nodes, index)
    {
      var i := 0;
      while i < |env.nodes|
        invariant i <= |env.nodes| && FindNode(env.nodes, index) == FindNode(env.nodes[i..], index)
      {
        if env.nodes[i].index == index {
          return Some(env.nodes[i]);
        }
        assert env.nodes[i..][1..] == env.nodes[i + 1..];
        i := i + 1;
      }
      return None;
    }

    // ---------- account.go ----------

    method GetAccountFromTrie(address: string) returns (a: Option<Account>)
      ensures a == if address in accTrie then Some(accTrie[address]) else None
    {
      if address in accTrie {
        return Some(accTrie[address]);
      }
      return None;
    }

    method SaveAccountToTrie(a: Account)
      modifies this`accTrie, this`accRootHash
      ensures accTrie == SaveAccount(old(accTrie), a) && accRootHash == Some(accTrie)
    {
      accTrie := accTrie[a.address := a];
      accRootHash := Some(accTrie);
    }

    method InitializeTestAccounts()
      modifies this`accTrie, this`accRootHash
      ensures accTrie == EnsureTestAccounts(old(accTrie), addressOf)
      ensures accRootHash == Some(accTrie) || (accRootHash == old(accRootHash) && accTrie == old(accTrie))
    {
      EnsureTestAccount(TEST_KEYS[0]);
      EnsureTestAccount(TEST_KEYS[1]);
      EnsureTestAccount(TEST_KEYS[2]);
    }

    method EnsureTestAccount(publicKey: string)
      modifies this`accTrie, this`accRootHash
      ensures accTrie == EnsureAccount(old(accTrie), addressOf(publicKey), publicKey)
      ensures accRootHash == Some(accTrie) || (accRootHash == old(accRootHash) && accTrie == old(accTrie))
    {
      var existing := GetAccountFromTrie(addressOf(publicKey));
      if existing.None? {
        SaveAccountToTrie(Account(addressOf(publicKey), TEST_BALANCE, publicKey, 0));
      }
    }

    /** Start on whatever the database holds. */
    method Init(time: Word)
      requires StoreOk(Saved())
      modifies this
      ensures Valid() && fresh(mempool) && State() == Boot(old(Saved()), time, addressOf)
    {
      hide BlockKey, EnsureTestAccounts, SaveBlock, Boot;
      BootFields(Saved(), time, addressOf);
      OpenChain(time);
      OpenLedger();
      mempool := new Mempool();
    }

    /** The part of Init that restores the two ledger tries and makes sure of the test accounts. */
    method OpenLedger()
      modifies this`txTrie, this`accTrie, this`accRootHash
      ensures txTrie == if txRootHash.Some? then txRootHash.value else map[]
      ensures accTrie == EnsureTestAccounts(if old(accRootHash).Some? then old(accRootHash).value else map[], addressOf)
      ensures LedgerSaved()
    {
      hide EnsureTestAccounts;
      txTrie := if txRootHash.Some? then txRootHash.value else map[];
      accTrie := if accRootHash.Some? then accRootHash.value else map[];
      InitializeTestAccounts();
      TestAccountsNotEmpty(addressOf);
    }

    /** The part of Init that restores the block trie, or stores a genesis block made now. */
    method OpenChain(time: Word)
      requires StoreOk(Saved())
      modifies this`tr, this`rootHash, this`currentBlock, this`lastBlock
      ensures rootHash == Some(tr) && currentBlock.Some? && lastBlock.Some?
      ensures if old(rootHash).None?
              then tr == map[BlockKey(0) := Genesis(time)] && currentBlock == lastBlock == Some(Genesis(time))
              else rootHash == old(rootHash) && currentBlock == old(currentBlock) && lastBlock == old(lastBlock)
    {
      hide BlockKey, SaveBlock;
      if rootHash.None? {
        tr := map[];
        var failure := SaveBlockToTrie(Genesis(time));
      } else {
        tr := rootHash.value;
      }
    }

    // ---------- tx.go ----------

    method SaveTransactionToTrie(t: Transaction)
      modifies this`txTrie, this`txRootHash, this`log
      ensures txTrie == old(txTrie)[t.id := t] && txRootHash == Some(txTrie) && log == old(log) + [t]
    {
      txTrie := txTrie[t.id := t];
      txRootHash := Some(txTrie);
      log := log + [t];
    }

    method IsTransactionExist(id: TxId) returns (exists_: bool)
      ensures exists_ <==> id in txTrie
    {
      return id in txTrie;
    }

    method LookUpTransaction(txID: string, remote: Pool) returns (t: Option<Transaction>)
      ensures t == GetTransactionByID(mempool.transactions, txTrie, remote, txID)
      ensures txID in mempool.transactions ==> t == Some(mempool.transactions[txID])
      ensures forall id :: txID == HexEncode(id) && txID !in mempool.transactions && id in txTrie ==>
              t == Some(txTrie[id])
      ensures forall id :: txID == HexEncode(id) && txID !in mempool.transactions && id !in txTrie ==>
                t == if txID in remote then Some(remote[txID]) else None
    {
      t := mempool.GetTransaction(txID);
      if t.Some? {
        return;
      }
      var id := HexDecode(txID);
      if id.None? {
        return None;
      }
      if id.value in txTrie {
        return Some(txTrie[id.value]);
      }
      if txID in remote {
        return Some(remote[txID]);
      }
      return None;
    }

    method ProcessMempoolTransactions() returns (ids: seq<string>, fault: Option<Fault>, ghost order: seq<Transaction>)
      requires Valid()
      modifies this`txTrie, this`txRootHash, this`accTrie, this`accRootHash, this`log, mempool
      ensures Valid() && IsSnapshot(old(mempool.transactions), order)
      ensures ProposerLoop(StartProposer(old(Books()), old(mempool.transactions)), order) ==
              Proposer(Books(), mempool.transactions, ids, fault)
    {
      hide ProposerLoop, ProposerStep, HexEncode, IsSnapshot, Apply, Add64, Sub64, PoolKeyed;
      var transactions := mempool.GetAllTransactions();
      order := transactions;
      ids := [];
      ghost var p := StartProposer(Books(), mempool.transactions);
      var i := 0;
      assert transactions[0..] == transactions;
      while i < |transactions|
        invariant i <= |transactions| && mempool.Valid() && LedgerSaved()
        invariant p == Proposer(Books(), mempool.transactions, ids, None)
        invariant ProposerLoop(p, transactions[i..]) ==
                  ProposerLoop(StartProposer(old(Books()), old(mempool.transactions)), order)
      {
        var t := transactions[i];
        var txID := HexEncode(t.id);
        ghost var was := p;
        ProposerLoopUnfold(p, transactions, i);
        ProposerBranches(p, t);
        p := ProposerStep(p, t);
        i := i + 1;
        var known := IsTransactionExist(t.id);
        if known {
          continue;
        }
        var fromAcc := GetAccountFromTrie(t.from);
        if fromAcc.None? {
          mempool.RemoveTransaction(txID);
          return ids, Some(UnknownSender), order;
        }
        var toAcc := GetAccountFromTrie(t.to);
        if toAcc.None? {
          mempool.RemoveTransaction(txID);
          return ids, Some(UnknownRecipient), order;
        }
        var sender, recipient := fromAcc.value, toAcc.value;
        if sender.balance < t.amount {
          mempool.RemoveTransaction(txID);
          continue;
        }
        sender := sender.(balance := Sub64(sender.balance, t.amount));
        recipient := recipient.(balance := Add64(recipient.balance, t.amount));
        sender := sender.(nonce := Add64(sender.nonce, 1));
        SaveAccountToTrie(sender);
        SaveAccountToTrie(recipient);
        SaveTransactionToTrie(t);
        ids := ids + [txID];
        mempool.RemoveTransaction(txID);
        assert Posts(was.ledger, t, Books());
      }
      assert transactions[i..] == [];
      ProposerLoopEnd(p);
      return ids, None, order;
    }

    method ProcessTransactionsByIDs(txIDs: seq<string>, remote: Pool) returns (fault: Option<Fault>)
      requires Valid()
      modifies this`txTrie, this`txRootHash, this`accTrie, this`accRootHash, this`log, mempool
      ensures Valid()
      ensures FollowerLoop(Follower(old(Books()), old(mempool.transactions), None), txIDs, remote) ==
              Follower(Books(), mempool.transactions, fault)
    {
      hide FollowerLoop, FollowerStep, HexEncode, HexDecode, Apply, GetTransactionByID, Add64, Sub64, PoolKeyed;
      ghost var f := Follower(Books(), mempool.transactions, None);
      var i := 0;
      assert txIDs[0..] == txIDs;
      while i < |txIDs|
        invariant i <= |txIDs| && mempool.Valid() && LedgerSaved()
        invariant f == Follower(Books(), mempool.transactions, None)
        invariant FollowerLoop(f, txIDs[i..], remote) ==
                  FollowerLoop(Follower(old(Books()), old(mempool.transactions), None), txIDs, remote)
      {
        var txID := txIDs[i];
        ghost var was := f;
        FollowerLoopUnfold(f, txIDs, remote, i);
        FollowerBranches(f, txID, remote);
        f := FollowerStep(f, txID, remote);
        i := i + 1;
        var id := HexDecode(txID);
        if id.None? {
          return Some(BadTxId);
        }
        var known := IsTransactionExist(id.value);
        if known {
          continue;
        }
        var found := LookUpTransaction(txID, remote);
        if found.None? {
          mempool.RemoveTransaction(txID);
          return Some(NoTransaction);
        }
        var t := found.value;
        var fromAcc := GetAccountFromTrie(t.from);
        if fromAcc.None? {
          mempool.RemoveTransaction(txID);
          return Some(UnknownSender);
        }
        var toAcc := GetAccountFromTrie(t.to);
        if toAcc.None? {
          mempool.RemoveTransaction(txID);
          return Some(UnknownRecipient);
        }
        var sender, recipient := fromAcc.value, toAcc.value;
        if sender.balance < t.amount {
          mempool.RemoveTransaction(txID);
          continue;
        }
        sender := sender.(balance := Sub64(sender.balance, t.amount));
        recipient := recipient.(balance := Add64(recipient.balance, t.amount));
        sender := sender.(nonce := Add64(sender.nonce, 1));
        SaveAccountToTrie(sender);
        SaveAccountToTrie(recipient);
        SaveTransactionToTrie(t);
        assert Posts(was.ledger, t, Books());
      }
      assert txIDs[i..] == [];
      FollowerLoopEnd(f, remote);
      return None;
    }
  }

  /** The two account copies after a transfer, in the order the loops compute them. */
  function Debited(a: Account, t: Transaction): Account {
    a.(balance := Sub64(a.balance, t.amount), nonce := Add64(a.nonce, 1))
  }

  function Credited(a: Account, t: Transaction): Account {
    a.(balance := Add64(a.balance, t.amount))
  }

  ghost predicate Posts(l: Ledger, t: Transaction, r: Ledger) {
    && Knows(l.accounts, t)
    && r.accounts == SaveAccount(SaveAccount(l.accounts, Debited(l.accounts[t.from], t)), Credited(l.accounts[t.to], t))
    && r.txs == l.txs[t.id := t] && r.log == l.log + [t]
  }

  /** What one proposer iteration must have done, branch by branch. */
  lemma ProposerBranches(p: Proposer, t: Transaction)
    ensures var q, dropped := ProposerStep(p, t), p.pool - {HexEncode(t.id)};
            if t.id in p.ledger.txs then q == p
            else if t.from !in p.ledger.accounts then q == p.(pool := dropped, fault := Some(UnknownSender))
            else if t.to !in p.ledger.accounts then q == p.(pool := dropped, fault := Some(UnknownRecipient))
            else if p.ledger.accounts[t.from].balance < t.amount then q == p.(pool := dropped)
            else q.pool == dropped && q.ids == p.ids + [HexEncode(t.id)] && q.fault == None &&
                 forall r :: Posts(p.ledger, t, r) ==> r == q.ledger
  {
    hide HexEncode;
  }

  lemma FollowerBranches(f: Follower, txID: string, remote: Pool)
    ensures var g, dropped := FollowerStep(f, txID, remote), f.pool - {txID};
            match HexDecode(txID)
            case None => g == f.(fault := Some(BadTxId))
            case Some(id) =>
              if id in f.ledger.txs then g == f
              else match GetTransactionByID(f.pool, f.ledger.txs, remote, txID)
                case None => g == f.(pool := dropped, fault := Some(NoTransaction))
                case Some(t) =>
                  if t.from !in f.ledger.accounts then g == f.(pool := dropped, fault := Some(UnknownSender))
                  else if t.to !in f.ledger.accounts then g == f.(pool := dropped, fault := Some(UnknownRecipient))
                  else if f.ledger.accounts[t.from].balance < t.amount then g == f.(pool := dropped)
                  else g.pool == f.pool && g.fault == f.fault && forall r :: Posts(f.ledger, t, r) ==> r == g.ledger
  {
    hide HexDecode, GetTransactionByID;
  }

  lemma ProposerLoopEnd(p: Proposer)
    ensures ProposerLoop(p, []) == p
  {
  }

  lemma FollowerLoopEnd(f: Follower, remote: Pool)
    ensures FollowerLoop(f, [], remote) == f
  {
  }

  /** What Boot leaves in each field. */
  lemma BootFields(store: Store, time: Word, addressOf: string -> string)
    requires StoreOk(store)
    ensures var n := Boot(store, time, addressOf);
            && n.blocks == (if store.root.None? then map[BlockKey(0) := Genesis(time)] else store.root.value)
            && n.current == (if store.root.None? then Genesis(time) else store.current.value)
            && n.last == (if store.root.None? then Genesis(time) else store.last.value)
            && n.ledger.accounts == EnsureTestAccounts(if store.accRoot.Some? then store.accRoot.value else map[],
                                                       addressOf)
            && n.ledger.txs == (if store.txRoot.Some? then store.txRoot.value else map[])
            && n.ledger.log == store.log && n.pool == map[]
  {
    hide BlockKey, EnsureTestAccounts, Genesis;
  }

  lemma TestAccountsNotEmpty(addressOf: string -> string)
    ensures EnsureTestAccounts(map[], addressOf) != map[]
  {
  }
}
