// A block's list as a receipt: in orderly runs whose early blocks agree, a node has applied exactly what its
// chain lists.

module Receipts {
  import opened Options
  import opened Words
  import opened Encoding
  import opened Transactions
  import opened Ledgers
  import opened Processing
  import opened Chain
  import opened Protocol
  import opened Agreement
  import opened Replication

  /** The IDs that blocks 1 .. k of a chain list, in order. */
  function Listed(blocks: map<string, Block>, k: nat): seq<string> {
    if k == 0 then []
    else Listed(blocks, k - 1) + if BlockKey(k) in blocks then blocks[BlockKey(k)].txns else []
  }

  /** On this chain everything that the block of height h lists takes effect in turn. */
  ghost predicate TakesEffect(net: Net, blocks: map<string, Block>, h: nat)
    requires h >= 1
  {
    && BlockKey(h) in blocks
    && HexIds(ReplayChain(net, blocks, h).log)
       == HexIds(ReplayChain(net, blocks, h - 1).log) + blocks[BlockKey(h)].txns
  }

  lemma TakesEffectFrame(net: Net, blocks: map<string, Block>, blocks': map<string, Block>, h: nat)
    requires h >= 1 && TakesEffect(net, blocks, h)
    requires forall g: nat :: 1 <= g <= h ==> BlockKey(g) in blocks && BlockKey(g) in blocks' &&
                                              blocks[BlockKey(g)].txns == blocks'[BlockKey(g)].txns
    ensures TakesEffect(net, blocks', h)
  {
    hide BlockKey, ReplayChain, HexIds;
    ReplayChainFrame(net, blocks, blocks', h);
    ReplayChainFrame(net, blocks, blocks', h - 1);
  }

  /** Some node holds the block on a chain on which all of it takes effect. */
  ghost predicate Receipt(net: Net, nodes: map<Word, Node>, b: Block) {
    b.index >= 1 && exists i :: i in nodes && Holds(nodes[i], b) && TakesEffect(net, nodes[i].blocks, b.index)
  }

  ghost predicate AllReceipts(net: Net, s: System) {
    forall b :: b in s.created ==> Receipt(net, s.nodes, b)
  }

  /** Later blocks do not change what a chain means up to here. */
  lemma StillTakesEffect(net: Net, s: System, i: Word, n': Node, h: nat)
    requires Inv(net, s) && i in s.nodes && KeepsBlocks(s.nodes[i], n')
    requires 1 <= h <= s.nodes[i].current.index && TakesEffect(net, s.nodes[i].blocks, h)
    ensures TakesEffect(net, n'.blocks, h)
  {
    hide Inv, BlockKey, TakesEffect, WellFormed;
    forall g: nat | 1 <= g <= h
      ensures BlockKey(g) in s.nodes[i].blocks
    {
      Stored(net, s, i, g);
    }
    TakesEffectFrame(net, s.nodes[i].blocks, n'.blocks, h);
  }

  lemma KeptReceipt(net: Net, s: System, nodes': map<Word, Node>, b: Block)
    requires Inv(net, s) && Receipt(net, s.nodes, b)
    requires forall i :: i in s.nodes ==> i in nodes' && KeepsBlocks(s.nodes[i], nodes'[i])
    ensures Receipt(net, nodes', b)
  {
    hide Inv, BlockKey, TakesEffect;
    var i :| i in s.nodes && Holds(s.nodes[i], b) && TakesEffect(net, s.nodes[i].blocks, b.index);
    StoredAt(net, s, i, b.index);
    StillTakesEffect(net, s, i, nodes'[i], b.index);
    assert Holds(nodes'[i], b);
  }

  lemma HexIdsAppend(ts: seq<Transaction>, us: seq<Transaction>)
    ensures HexIds(ts + us) == HexIds(ts) + HexIds(us)
  {
    hide HexEncode;
  }

  lemma ProposedLog(n: Node, i: Word, step: Step)
    requires n.current.index < TWO_64 - 1 && step.TakeTurn?
    requires Propose(n, i, step.order, step.signature, step.time).1.Proposed?
    ensures var (n', p) := Propose(n, i, step.order, step.signature, step.time);
            Appended(n, n', p.block) && HexIds(n'.ledger.log) == HexIds(n.ledger.log) + p.block.txns
  {
    hide Propose, ProposerLoop, BlockKey, HexIds, Eligible, Applies, Appended, CanPropose;
    var (n', p) := Propose(n, i, step.order, step.signature, step.time);
    ProposeShape(n, i, step.order, step.signature, step.time);
    var start := StartProposer(n.ledger, n.pool);
    var ts := ProposerApplies(start, step.order);
    AppliesGrows(n.ledger, ts, n'.ledger);
    HexIdsAppend(n.ledger.log, ts);
    assert ProposerLoop(start, step.order).ids == HexIds(ts);
  }

  /** What a proposer lists has just taken effect on top of its chain. */
  lemma ProposedTakesEffect(net: Net, genuine: set<Block>, n: Node, i: Word, step: Step)
    requires NodeInv(net, genuine, n) && step.TakeTurn?
    requires Propose(n, i, step.order, step.signature, step.time).1.Proposed?
    requires Replicated(net, n) && Replicated(net, Propose(n, i, step.order, step.signature, step.time).0)
    ensures var (n', p) := Propose(n, i, step.order, step.signature, step.time);
            p.block.index >= 1 && Holds(n', p.block) && TakesEffect(net, n'.blocks, p.block.index)
  {
    hide NodeInv, Propose, ReplayChain, BlockKey, HexIds;
    var (n', p) := Propose(n, i, step.order, step.signature, step.time);
    BelowLimit(net, genuine, n);
    ProposedLog(n, i, step);
    SameBelow(net, genuine, n, n', p.block);
  }

  /** The chain below a new block means what it meant before. */
  lemma SameBelow(net: Net, genuine: set<Block>, n: Node, n': Node, b: Block)
    requires NodeInv(net, genuine, n) && Appended(n, n', b)
    ensures ReplayChain(net, n'.blocks, n.current.index) == ReplayChain(net, n.blocks, n.current.index)
  {
    hide NodeInv, ReplayChain, BlockKey;
    forall h: nat | 1 <= h <= n.current.index
      ensures BlockKey(h) in n.blocks && BlockKey(h) in n'.blocks && n.blocks[BlockKey(h)] == n'.blocks[BlockKey(h)]
    {
      StoredInNode(net, genuine, n, h);
      BlockKeysNeverCollide(h, b.index);
    }
    ReplayChainFrame(net, n.blocks, n'.blocks, n.current.index);
  }

  lemma CreatedByTurn(net: Net, s: System, step: Step)
    requires Enabled(net, s, step)
    ensures var s' := Do(net, s, step);
            || s'.created == s.created
            || (step.TakeTurn? &&
                var (n', p) := Propose(s.nodes[step.i], step.i, step.order, step.signature, step.time);
                p.Proposed? && s'.created == s.created + {p.block} && step.i in s'.nodes && s'.nodes[step.i] == n')
  {
    hide Propose, HandleNewBlock, Boot, IsSnapshot, Acceptable, RemoteOk, Issued, BlockKey;
  }

  lemma StepReceipts(net: Net, s: System, step: Step)
    requires Inv(net, s) && Enabled(net, s, step) && AllReplicated(net, s) && AllReplicated(net, Do(net, s, step))
    requires AllReceipts(net, s)
    ensures AllReceipts(net, Do(net, s, step))
  {
    hide Inv, Enabled, Do, Propose, Receipt, Replicated, TakesEffect, Holds, KeepsBlocks;
    var s' := Do(net, s, step);
    StepActs(net, s, step);
    CreatedByTurn(net, s, step);
    forall i | i in s.nodes
      ensures i in s'.nodes && KeepsBlocks(s.nodes[i], s'.nodes[i])
    {
      StepGrows(net, s, step, i);
    }
    forall b | b in s'.created
      ensures Receipt(net, s'.nodes, b)
    {
      if b in s.created {
        KeptReceipt(net, s, s'.nodes, b);
      } else {
        NodeAt(net, s, step.i);
        ProposedTakesEffect(net, Genuine(s), s.nodes[step.i], step.i, step);
        ReceiptBy(net, s'.nodes, step.i, b);
      }
    }
  }

  lemma NodeAt(net: Net, s: System, i: Word)
    requires Inv(net, s) && i in s.nodes
    ensures NodeInv(net, Genuine(s), s.nodes[i])
  {
    hide NodeInv, WellFormed, HeldByCreator, MessageOk;
  }

  lemma ReceiptBy(net: Net, nodes: map<Word, Node>, i: Word, b: Block)
    requires i in nodes && b.index >= 1 && Holds(nodes[i], b) && TakesEffect(net, nodes[i].blocks, b.index)
    ensures Receipt(net, nodes, b)
  {
  }

  lemma {:induction false} RunReceipts(net: Net, s: System, steps: seq<Step>)
    requires Inv(net, s) && Legal(net, s, steps) && OrderlyRun(net, s, steps)
    requires AllReplicated(net, s) && AllReceipts(net, s)
    ensures AllReceipts(net, Execute(net, s, steps)) && AllReplicated(net, Execute(net, s, steps))
    decreases |steps|
  {
    hide Inv, Enabled, Do, AllReplicated, AllReceipts, Orderly;
    if steps != [] {
      StepActs(net, s, steps[0]);
      StepInv(net, s, steps[0]);
      StepReplicatesIff(net, s, steps[0]);
      StepReceipts(net, s, steps[0]);
      RunReceipts(net, Do(net, s, steps[0]), steps[1..]);
    }
  }

  /** No other node holds other transactions at heights 1 and 2. */
  ghost predicate EarlyBlocksAgree(s: System, i: Word)
    requires i in s.nodes
  {
    forall j :: j in s.nodes ==> SameEarlyBlocks(s.nodes[i], s.nodes[j])
  }

  /** A node's own chain agrees with the one on which a block of it was found effective. */
  lemma TakesEffectOnChain(net: Net, s: System, i: Word, h: nat)
    requires Inv(net, s) && AllReceipts(net, s) && i in s.nodes && EarlyBlocksAgree(s, i)
    requires 1 <= h <= s.nodes[i].current.index
    ensures TakesEffect(net, s.nodes[i].blocks, h)
  {
    hide Inv, BlockKey, TakesEffect, WellFormed;
    Stored(net, s, i, h);
    var n, b := s.nodes[i], BlockAt(s.nodes[i], h);
    assert Receipt(net, s.nodes, b);
    var j :| j in s.nodes && Holds(s.nodes[j], b) && TakesEffect(net, s.nodes[j].blocks, b.index);
    var m := s.nodes[j];
    StoredAt(net, s, j, h);
    forall g: nat | 1 <= g <= h
      ensures BlockKey(g) in m.blocks && BlockKey(g) in n.blocks &&
              m.blocks[BlockKey(g)].txns == n.blocks[BlockKey(g)].txns
    {
      Stored(net, s, i, g);
      Stored(net, s, j, g);
      assert BothHold(n, m, g);
      if g >= 3 {
        InvAgree(net, s);
      }
    }
    TakesEffectFrame(net, m.blocks, n.blocks, h);
  }

  lemma {:induction false} ChainIsListed(net: Net, blocks: map<string, Block>, k: nat)
    requires forall h: nat :: 1 <= h <= k ==> TakesEffect(net, blocks, h)
    ensures HexIds(ReplayChain(net, blocks, k).log) == Listed(blocks, k)
  {
    hide BlockKey, HexIds, ReplayIds;
    if k > 0 {
      ChainIsListed(net, blocks, k - 1);
      assert TakesEffect(net, blocks, k);
    } else {
      assert ReplayChain(net, blocks, 0).log == [];
      assert |HexIds([])| == 0;
    }
  }

  /** Where the history is what was listed, the transaction trie holds exactly the listed IDs, each listed once. */
  lemma ListedIsStored(l: Ledger, ids: seq<string>)
    requires LogMatchesTrie(l) && HexIds(l.log) == ids
    ensures forall id :: id in l.txs <==> HexEncode(id) in ids
    ensures forall a, b :: 0 <= a < b < |ids| ==> ids[a] != ids[b]
  {
    hide HexEncode;
    forall id
      ensures id in l.txs <==> HexEncode(id) in ids
    {
      if id in l.txs {
        var k :| 0 <= k < |l.log| && l.log[k] == l.txs[id];
        assert ids[k] == HexEncode(id);
      }
      if HexEncode(id) in ids {
        var k :| 0 <= k < |ids| && ids[k] == HexEncode(id);
        HexEncodeInjective(l.log[k].id, id);
      }
    }
    forall a, b | 0 <= a < b < |ids|
      ensures ids[a] != ids[b]
    {
      HexEncodeInjective(l.log[a].id, l.log[b].id);
    }
  }

  /** In every orderly run a node whose blocks at heights 1 and 2 nobody contradicts has applied exactly the
      transactions that its blocks 1 to CURRENT list, in that order and each of them once: none is listed in vain, and
      none is stored without being listed. */
  lemma ReceiptsInEveryRun(net: Net, t1: Word, t2: Word, t3: Word, steps: seq<Step>, i: Word)
    requires Legal(net, Initial(net, t1, t2, t3), steps) && OrderlyRun(net, Initial(net, t1, t2, t3), steps)
    requires 1 <= i <= 3
    ensures var s := Execute(net, Initial(net, t1, t2, t3), steps);
            && i in s.nodes
            && (EarlyBlocksAgree(s, i) ==>
                  var n := s.nodes[i];
                  var ids := Listed(n.blocks, n.current.index);
                  && HexIds(n.ledger.log) == ids
                  && (forall id :: id in n.ledger.txs <==> HexEncode(id) in ids)
                  && (forall a, b :: 0 <= a < b < |ids| ==> ids[a] != ids[b]))
  {
    hide *;
    var s0 := Initial(net, t1, t2, t3);
    InitialInv(net, t1, t2, t3);
    InitialReplicated(net, t1, t2, t3);
    InitialReceipts(net, t1, t2, t3);
    RunReceipts(net, s0, steps);
    RunInv(net, s0, steps);
    var s := Execute(net, s0, steps);
    NodeOf(net, s, i);
    if EarlyBlocksAgree(s, i) {
      NodeIsListed(net, s, i);
    }
  }

  lemma InitialReceipts(net: Net, t1: Word, t2: Word, t3: Word)
    ensures AllReceipts(net, Initial(net, t1, t2, t3))
  {
    hide Boot;
  }

  lemma NodeIsListed(net: Net, s: System, i: Word)
    requires Inv(net, s) && AllReplicated(net, s) && AllReceipts(net, s) && i in s.nodes && EarlyBlocksAgree(s, i)
    ensures var n := s.nodes[i];
            var ids := Listed(n.blocks, n.current.index);
            && HexIds(n.ledger.log) == ids
            && (forall id :: id in n.ledger.txs <==> HexEncode(id) in ids)
            && (forall a, b :: 0 <= a < b < |ids| ==> ids[a] != ids[b])
  {
    hide Inv, NodeInv, LedgerInv, PoolInv, AllReceipts, EarlyBlocksAgree, HexEncode, HexIds, ReplayChain, Listed;
    hide TakesEffect, LogMatchesTrie;
    var n := s.nodes[i];
    forall h: nat | 1 <= h <= n.current.index
      ensures TakesEffect(net, n.blocks, h)
    {
      TakesEffectOnChain(net, s, i, h);
    }
    ChainIsListed(net, n.blocks, n.current.index);
    assert Replicated(net, n);
    NodeAt(net, s, i);
    LedgerAndPool(net, Genuine(s), n);
    LedgerKnowsAll(net, n.ledger);
    ListedIsStored(n.ledger, Listed(n.blocks, n.current.index));
  }
}
