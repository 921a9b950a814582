// The message handlers and periodic steps of a node, over its Blockchain object, each tied to the step that
// module Protocol takes in a run.

module P2PNetworks {
  import opened Options
  import opened Words
  import opened Encoding
  import opened Transactions
  import opened Ledgers
  import opened Processing
  import opened Chain
  import opened Protocol
  import opened Blockchains

  /** In any run with this configuration in which the node stands as `before` says, the step takes it to `after`. */
  ghost predicate Performs(env: Env, step: Step, before: Node, after: Node) {
    forall net: Net, s: System | net.env == env && Enabled(net, s, step) && s.nodes[step.i] == before ::
      Do(net, s, step).nodes[step.i] == after
  }

  /** In any such run the step leaves the node alone and sends this message. */
  ghost predicate Sends(env: Env, step: Step, node: Node, m: Message) {
    forall net: Net, s: System | net.env == env && Enabled(net, s, step) && s.nodes[step.i] == node ::
      Do(net, s, step).nodes == s.nodes && Do(net, s, step).soup == s.soup + {m}
  }

  /** The read and the write of LAST, one right after the other. */
  ghost predicate TakesInLast(env: Env, i: Word, b: Block, before: Node, after: Node) {
    forall net: Net, s: System | net.env == env && Enabled(net, s, ReadLast(i, b)) && s.nodes[i] == before ::
      Enabled(net, Do(net, s, ReadLast(i, b)), WriteLast(i, LastReader(b, before.last.index))) &&
      Do(net, Do(net, s, ReadLast(i, b)), WriteLast(i, LastReader(b, before.last.index))).nodes[i] == after
  }

  lemma UndisturbedTakesInLast(env: Env, i: Word, b: Block, n: Node)
    ensures TakesInLast(env, i, b, n, n.(last := Later(n.last, b, n.last.index)))
  {
  }

  class P2PNetwork {
    const blockchain: Blockchain

    constructor (blockchain: Blockchain)
      ensures this.blockchain == blockchain
    {
      this.blockchain := blockchain;
    }

    method HandleBlockResponse(b: Block, remote: Pool)
      requires blockchain.Valid()
      modifies blockchain, blockchain.mempool
      ensures blockchain.Valid() && blockchain.mempool == old(blockchain.mempool)
      ensures blockchain.State() == Chain.HandleNewBlock(blockchain.env, old(blockchain.State()), b, remote).0
      ensures Performs(blockchain.env, HandleBlock(blockchain.index, b, remote), old(blockchain.State()),
                       blockchain.State())
    {
      hide Chain.HandleNewBlock, RemoteOk;
      var failure := blockchain.HandleNewBlock(b, remote);
    }

    method HandleBlockProposalRequest(b: Block, remote: Pool)
      requires blockchain.Valid()
      modifies blockchain, blockchain.mempool
      ensures blockchain.Valid() && blockchain.mempool == old(blockchain.mempool)
      ensures blockchain.State() == Chain.HandleNewBlock(blockchain.env, old(blockchain.State()), b, remote).0
      ensures Performs(blockchain.env, HandleBlock(blockchain.index, b, remote), old(blockchain.State()),
                       blockchain.State())
    {
      hide Chain.HandleNewBlock, RemoteOk;
      var failure := blockchain.HandleNewBlock(b, remote);
    }

    /** Undisturbed: read LAST, store the block if it is later. */
    method HandleLastBlockResponse(b: Block)
      requires blockchain.Valid()
      modifies blockchain`lastBlock
      ensures blockchain.Valid()
      ensures var n := old(blockchain.State()); blockchain.State() == n.(last := Later(n.last, b, n.last.index))
      ensures TakesInLast(blockchain.env, blockchain.index, b, old(blockchain.State()), blockchain.State())
    {
      hide TakesInLast;
      UndisturbedTakesInLast(blockchain.env, blockchain.index, b, blockchain.State());
      var last := blockchain.lastBlock.value;
      if b.index > last.index {
        blockchain.SaveLastBlock(b);
      }
    }

    /** The proposal goroutine's step: a block is sent exactly when one was created. */
    method ProposeTick(to: Word, signature: Option<string>, time: Word)
      returns (sent: Option<Message>, ghost order: seq<Transaction>)
      requires blockchain.Valid()
      modifies blockchain, blockchain.mempool
      ensures blockchain.Valid() && blockchain.mempool == old(blockchain.mempool)
      ensures IsSnapshot(old(blockchain.mempool.transactions), order)
      ensures var (n', p) := Propose(old(blockchain.State()), blockchain.index, order, signature, time);
              && blockchain.State() == n'
              && (old(blockchain.currentBlock.value.index) < TWO_64 - 1 ==>
                    sent == if p.Proposed? then Some(BlockProposal(to, p.block)) else None)
      ensures Performs(blockchain.env, TakeTurn(blockchain.index, to, order, signature, time), old(blockchain.State()),
                       blockchain.State())
    {
      hide Propose, IsSnapshot, Acceptable;
      var p;
      ghost var n := blockchain.State();
      p, order := blockchain.ProposeNewBlock(signature, time);
      if n.current.index < TWO_64 - 1 {
        ProposeShape(n, blockchain.index, order, signature, time);
      }
      if p.Proposed? && p.block.index > 0 {
        sent := Some(BlockProposal(to, p.block));
      } else {
        sent := None;
      }
    }

    /** The catch-up goroutine's step: ask for CURRENT + 1 while LAST is ahead. */
    method RequestTick(to: Word) returns (sent: Option<Message>)
      requires blockchain.Valid()
      ensures var n := blockchain.State();
              sent == if n.current.index < n.last.index
                      then Some(BlockRequest(blockchain.index, to, BlockKey(Add64(n.current.index, 1))))
                      else None
      ensures sent.Some? ==> Sends(blockchain.env, RequestNext(blockchain.index, to), blockchain.State(), sent.value)
    {
      hide BlockKey;
      var current, last := blockchain.currentBlock.value, blockchain.lastBlock.value;
      if current.index < last.index {
        return Some(BlockRequest(blockchain.index, to, BlockKey(Add64(current.index, 1))));
      }
      return None;
    }

    /** The answer travels back to the node that asked. */
    method ServeBlock(asker: Word, key: string) returns (sent: Option<Message>)
      requires blockchain.Valid()
      ensures sent == if key in blockchain.State().blocks
                      then Some(BlockResponse(asker, blockchain.State().blocks[key]))
                      else None
      ensures sent.Some? ==> Sends(blockchain.env, Step.ServeBlock(blockchain.index, asker, key), blockchain.State(),
                                   sent.value)
    {
      var b := blockchain.GetBlockFromTrie(key);
      if b.None? {
        return None;
      }
      return Some(BlockResponse(asker, b.value));
    }

    method ServeLastBlock(asker: Word) returns (sent: Option<Message>)
      requires blockchain.Valid()
      ensures sent == Some(LastResponse(asker, blockchain.State().last))
      ensures Sends(blockchain.env, ServeLast(blockchain.index, asker), blockchain.State(), sent.value)
    {
      return Some(LastResponse(asker, blockchain.lastBlock.value));
    }

    /** A transaction that arrives is kept when its sender has an account and signed it; where both texts are encodings,
        when the account's key is the one recovered from the signature over the four fields. */
    method HandleTransaction(t: Transaction)
      requires blockchain.Valid()
      modifies blockchain.mempool
      ensures blockchain.Valid()
      ensures var n := old(blockchain.State());
              blockchain.State() ==
              if Admissible(blockchain.env.ecdsa, n.ledger.accounts, t) then n.(pool := AddToPool(n.pool, t)) else n
      ensures Admissible(blockchain.env.ecdsa, old(blockchain.State()).ledger.accounts, t) ==>
                Performs(blockchain.env, AddTransaction(blockchain.index, t), old(blockchain.State()),
                         blockchain.State())
      ensures forall key, signature |
                t.signature == HexEncode(signature) && t.from in old(blockchain.accTrie) &&
                old(blockchain.accTrie)[t.from].publicKey == HexEncode(key) ::
                blockchain.mempool.transactions ==
                if SignedBy(blockchain.env.ecdsa, t, key, signature)
                then AddToPool(old(blockchain.mempool.transactions), t) else old(blockchain.mempool.transactions)
    {
      hide HexEncode, VerifyTransactionSignature, SignedBy;
      forall key, signature |
        t.signature == HexEncode(signature) && t.from in blockchain.accTrie &&
        blockchain.accTrie[t.from].publicKey == HexEncode(key)
        ensures Admissible(blockchain.env.ecdsa, blockchain.accTrie, t) <==>
                SignedBy(blockchain.env.ecdsa, t, key, signature)
      {
        OwnersSignatureIsAdmitted(blockchain.env.ecdsa, blockchain.accTrie, t, key, signature);
      }
      var sender := blockchain.GetAccountFromTrie(t.from);
      if sender.None? {
        return;
      }
      var verdict := VerifyTransactionSignature(blockchain.env.ecdsa, t, sender.value.publicKey);
      if verdict.None? || !verdict.value {
        return;
      }
      var added := blockchain.mempool.AddTransaction(t);
    }
  }
}
