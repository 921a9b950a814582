// What holds in every state that three honest nodes can reach.

module Agreement {
  import opened Options
  import opened Words
  import opened Encoding
  import opened Transactions
  import opened Ledgers
  import opened Processing
  import opened Chain
  import opened Protocol

  /** The invariant holds in every reachable state. */
  lemma ReachableInv(net: Net, t1: Word, t2: Word, t3: Word, steps: seq<Step>)
    requires Legal(net, Initial(net, t1, t2, t3), steps)
    ensures Inv(net, Execute(net, Initial(net, t1, t2, t3), steps))
  {
    hide *;
    InitialInv(net, t1, t2, t3);
    RunInv(net, Initial(net, t1, t2, t3), steps);
  }

  lemma NodeOf(net: Net, s: System, i: Word)
    requires Inv(net, s) && 1 <= i <= 3
    ensures i in s.nodes && NodeInv(net, Genuine(s), s.nodes[i])
  {
    hide NodeInv, WellFormed, HeldByCreator, MessageOk;
  }

  // ---------- Agreement ----------

  lemma OneBlockPerHeight(net: Net, s: System, a: Block, b: Block)
    requires Inv(net, s) && a in s.created && b in s.created
    requires a.index == b.index >= 3
    ensures a == b
  {
    hide NodeInv, WellFormed, MessageOk, Eligible, BlockKey;
    var i :| i in s.nodes && Eligible(i, a.index) && Holds(s.nodes[i], a);
    var j :| j in s.nodes && Eligible(j, b.index) && Holds(s.nodes[j], b);
    TurnSchedule(a.index);
    assert i == j;
  }

  function BlockAt(n: Node, h: nat): Block
    requires BlockKey(h) in n.blocks
  {
    n.blocks[BlockKey(h)]
  }

  /** A node holds every height up to its CURRENT; from height 1 on these blocks were created. */
  lemma Stored(net: Net, s: System, i: Word, h: nat)
    requires Inv(net, s) && i in s.nodes && h <= s.nodes[i].current.index
    ensures BlockKey(h) in s.nodes[i].blocks && BlockAt(s.nodes[i], h).index == h
    ensures if h == 0 then IsGenesis(BlockAt(s.nodes[i], h))
            else BlockAt(s.nodes[i], h) in s.created && WellFormed(net, BlockAt(s.nodes[i], h))
  {
    hide NodeInv, MessageOk, HeldByCreator, BlockKey, Acceptable, Lists;
    StoredInNode(net, Genuine(s), s.nodes[i], h);
    var b := BlockAt(s.nodes[i], h);
    assert if b in s.created then WellFormed(net, b) else IsGenesis(b);
  }

  lemma StoredInNode(net: Net, genuine: set<Block>, n: Node, h: nat)
    requires NodeInv(net, genuine, n) && h <= n.current.index
    ensures BlockKey(h) in n.blocks && BlockAt(n, h).index == h && BlockAt(n, h) in genuine
  {
    hide LedgerInv, PoolInv, AllSigned;
    BlockKeysNeverCollide(h, n.blocks[BlockKey(h)].index);
  }

  /** No node holds a height above its CURRENT. */
  lemma StoredOnlyUpToCurrent(net: Net, s: System, i: Word, key: string)
    requires Inv(net, s) && i in s.nodes && key in s.nodes[i].blocks
    ensures s.nodes[i].blocks[key].index <= s.nodes[i].current.index && key == BlockKey(s.nodes[i].blocks[key].index)
  {
  }

  predicate BothHold(m: Node, n: Node, h: nat) {
    BlockKey(h) in m.blocks && BlockKey(h) in n.blocks
  }

  ghost predicate Agree(s: System) {
    && (forall a, b :: a in s.created && b in s.created && a.index == b.index >= 3 ==> a == b)
    && (forall i, j, h: nat | i in s.nodes && j in s.nodes && h >= 3 && BothHold(s.nodes[i], s.nodes[j], h) ::
          BlockAt(s.nodes[i], h) == BlockAt(s.nodes[j], h))
  }

  lemma InvAgree(net: Net, s: System)
    requires Inv(net, s)
    ensures Agree(s)
  {
    hide NodeInv, WellFormed, MessageOk, HeldByCreator;
    forall a, b | a in s.created && b in s.created && a.index == b.index >= 3
      ensures a == b
    {
      OneBlockPerHeight(net, s, a, b);
    }
    forall i, j, h: nat | i in s.nodes && j in s.nodes && h >= 3 && BothHold(s.nodes[i], s.nodes[j], h)
      ensures BlockAt(s.nodes[i], h) == BlockAt(s.nodes[j], h)
    {
      StoredAt(net, s, i, h);
      StoredAt(net, s, j, h);
      OneBlockPerHeight(net, s, BlockAt(s.nodes[i], h), BlockAt(s.nodes[j], h));
    }
  }

  lemma StoredAt(net: Net, s: System, i: Word, h: nat)
    requires Inv(net, s) && i in s.nodes && BlockKey(h) in s.nodes[i].blocks && h >= 1
    ensures h <= s.nodes[i].current.index && BlockAt(s.nodes[i], h).index == h && BlockAt(s.nodes[i], h) in s.created
  {
    hide Inv;
    StoredOnlyUpToCurrent(net, s, i, BlockKey(h));
    BlockKeysNeverCollide(h, s.nodes[i].blocks[BlockKey(h)].index);
    Stored(net, s, i, h);
  }

  /** For every run, whatever is lost, duplicated or reordered: one created block per height from 3 on,
      and nodes that store a block at such a height store the same one. */
  lemma AgreementInEveryRun(net: Net, t1: Word, t2: Word, t3: Word, steps: seq<Step>)
    requires Legal(net, Initial(net, t1, t2, t3), steps)
    ensures Agree(Execute(net, Initial(net, t1, t2, t3), steps))
  {
    ReachableInv(net, t1, t2, t3, steps);
    InvAgree(net, Execute(net, Initial(net, t1, t2, t3), steps));
  }

  // ---------- Lag ----------

  /** The first height, at least 3 and above `current`, that only node `i` may fill. */
  function NextTurn(i: Word, current: nat): (h: nat)
    requires 1 <= i <= 3
    ensures h >= 3 && h > current && Proposer3(h) == i
    ensures forall k: nat :: 3 <= k < h && k > current ==> Proposer3(k) != i
  {
    var m := if current < 3 then 3 else current + 1;
    m + (i - m) % 3
  }

  /** While a node has not filled its own next turn, nobody has created anything from there on. */
  lemma NothingPastNextTurn(net: Net, s: System, i: Word, b: Block)
    requires Inv(net, s) && 1 <= i <= 3 && i in s.nodes && b in s.created
    ensures b.index < NextTurn(i, s.nodes[i].current.index)
  {
    hide Inv, BlockKey, Eligible, WellFormed, NextTurn;
    var h := NextTurn(i, s.nodes[i].current.index);
    if h <= b.index {
      var j := Creator(net, s, b);
      Stored(net, s, j, h);
      var k := Creator(net, s, BlockAt(s.nodes[j], h));
      TurnSchedule(h);
      assert false;
    }
  }

  lemma Creator(net: Net, s: System, b: Block) returns (j: Word)
    requires Inv(net, s) && b in s.created
    ensures 1 <= j <= 3 && j in s.nodes && Eligible(j, b.index) && Holds(s.nodes[j], b)
    ensures 1 <= b.index <= s.nodes[j].current.index
  {
    hide NodeInv, WellFormed, MessageOk, Eligible, BlockKey;
    j :| j in s.nodes && Eligible(j, b.index) && Holds(s.nodes[j], b);
    HeldIsBelow(net, Genuine(s), s.nodes[j], b);
    CreatedIndex(net, s, b);
  }

  lemma HeldIsBelow(net: Net, genuine: set<Block>, n: Node, b: Block)
    requires NodeInv(net, genuine, n) && Holds(n, b)
    ensures b.index <= n.current.index
  {
  }

  lemma CreatedIndex(net: Net, s: System, b: Block)
    requires Inv(net, s) && b in s.created
    ensures 1 <= b.index < TWO_64 - 1
  {
    hide NodeInv, MessageOk, HeldByCreator;
  }

  /** Every created block, and every LAST, is at most four heights above every CURRENT, and at most two
      above a CURRENT of at least 2. */
  ghost predicate LagBounded(s: System) {
    forall i, b :: i in s.nodes && (b in s.created || exists j :: j in s.nodes && s.nodes[j].last == b) ==>
      var c := s.nodes[i].current.index;
      b.index <= c + 4 && (c >= 2 ==> b.index <= c + 2)
  }

  lemma InvLagBounded(net: Net, s: System)
    requires Inv(net, s)
    ensures LagBounded(s)
  {
    hide NodeInv, MessageOk, HeldByCreator, WellFormed;
    forall i, b | i in s.nodes && (b in s.created || exists j :: j in s.nodes && s.nodes[j].last == b)
      ensures var c := s.nodes[i].current.index; b.index <= c + 4 && (c >= 2 ==> b.index <= c + 2)
    {
      if b !in s.created {
        var j :| j in s.nodes && s.nodes[j].last == b;
        LedgerAndPool(net, Genuine(s), s.nodes[j]);
        assert IsGenesis(b);
      } else {
        NothingPastNextTurn(net, s, i, b);
      }
    }
  }

  lemma LagBoundedInEveryRun(net: Net, t1: Word, t2: Word, t3: Word, steps: seq<Step>)
    requires Legal(net, Initial(net, t1, t2, t3), steps)
    ensures LagBounded(Execute(net, Initial(net, t1, t2, t3), steps))
  {
    ReachableInv(net, t1, t2, t3, steps);
    InvLagBounded(net, Execute(net, Initial(net, t1, t2, t3), steps));
  }

  // ---------- No deadlock ----------

  function Max(a: nat, b: nat): nat {
    if a < b then b else a
  }

  /** The highest CURRENT of the three nodes. */
  function Frontier(s: System): nat {
    if s.nodes.Keys == {1, 2, 3}
    then Max(s.nodes[1].current.index, Max(s.nodes[2].current.index, s.nodes[3].current.index))
    else 0
  }

  /** The frontier is the highest created height, and no LAST is above it. */
  lemma FrontierIsHighestCreated(net: Net, s: System)
    requires Inv(net, s)
    ensures forall b :: b in s.created ==> b.index <= Frontier(s)
    ensures Frontier(s) > 0 ==> exists b :: b in s.created && b.index == Frontier(s)
    ensures forall i :: i in s.nodes ==> s.nodes[i].last.index <= Frontier(s)
  {
    hide NodeInv, MessageOk, HeldByCreator, WellFormed, BlockKey, Eligible;
    forall b | b in s.created
      ensures b.index <= Frontier(s)
    {
      var j := Creator(net, s, b);
    }
    var f := Frontier(s);
    var i: Word := if f == s.nodes[1].current.index then 1 else if f == s.nodes[2].current.index then 2 else 3;
    Stored(net, s, i, f);
    forall i | i in s.nodes
      ensures s.nodes[i].last.index <= f
    {
      LedgerAndPool(net, Genuine(s), s.nodes[i]);
      assert s.nodes[i].last in s.created || IsGenesis(s.nodes[i].last);
    }
  }

  /** Some node is behind, and the block it needs next is in another node's trie. */
  ghost predicate CanCatchUp(s: System) {
    exists i, j :: i in s.nodes && j in s.nodes && i != j &&
      s.nodes[i].current.index < s.nodes[j].current.index &&
      BlockKey(s.nodes[i].current.index + 1) in s.nodes[j].blocks
  }

  ghost predicate AllAt(s: System, f: nat) {
    forall i :: i in s.nodes ==> s.nodes[i].current.index == f
  }

  /** In every reachable state a node can catch up, or all stand at the frontier and somebody may
      propose: exactly one node once the frontier is at least 2. */
  lemma NoDeadlock(net: Net, s: System)
    requires Inv(net, s)
    ensures if AllAt(s, Frontier(s))
            then (exists i :: i in s.nodes && CanPropose(s.nodes[i], i)) &&
                 (Frontier(s) >= 2 ==>
                    forall i :: i in s.nodes ==> (CanPropose(s.nodes[i], i) <==> i == Proposer3(Frontier(s) + 1)))
            else CanCatchUp(s)
  {
    hide NodeInv, WellFormed, HeldByCreator, MessageOk, CanPropose, CanCatchUp;
    if AllAt(s, Frontier(s)) {
      FrontierTurn(net, s, Frontier(s));
    } else {
      LaggardCanCatchUp(net, s);
    }
  }

  lemma FrontierTurn(net: Net, s: System, f: nat)
    requires Inv(net, s) && AllAt(s, f)
    ensures exists i :: i in s.nodes && CanPropose(s.nodes[i], i)
    ensures f >= 2 ==> forall i :: i in s.nodes ==> (CanPropose(s.nodes[i], i) <==> i == Proposer3(f + 1))
  {
    hide NodeInv, MessageOk, HeldByCreator, WellFormed, Eligible;
    FrontierIsHighestCreated(net, s);
    BelowLimit(net, Genuine(s), s.nodes[1]);
    TurnSchedule(f + 1);
    var k: Word := if f == 0 then 1 else if f == 1 then 2 else Proposer3(f + 1);
    assert Eligible(k, f + 1);
    assert k in s.nodes && CanPropose(s.nodes[k], k);
  }

  lemma LaggardCanCatchUp(net: Net, s: System)
    requires Inv(net, s) && !AllAt(s, Frontier(s))
    ensures CanCatchUp(s)
  {
    hide Inv, WellFormed, BlockKey, IsGenesis;
    InvNodes(net, s);
    var f := Frontier(s);
    var j: Word := if f == s.nodes[1].current.index then 1 else if f == s.nodes[2].current.index then 2 else 3;
    var i :| i in s.nodes && s.nodes[i].current.index != f;
    Stored(net, s, j, s.nodes[i].current.index + 1);
  }

  // ---------- The chain of a node ----------

  /** Each block names the Merkle root of the block below it and carries the genesis version. */
  ghost predicate Linked(n: Node) {
    forall h: nat :: 1 <= h <= n.current.index && BothAt(n, h) ==>
      && BlockAt(n, h).header.previousBlockHeader == BlockAt(n, h - 1).header.merkleRoot
      && BlockAt(n, h).header.version == BlockAt(n, 0).header.version
  }

  predicate BothAt(n: Node, h: nat)
    requires h >= 1
  {
    BlockKey(h) in n.blocks && BlockKey(h - 1) in n.blocks && BlockKey(0) in n.blocks
  }

  lemma InvLinked(net: Net, s: System, i: Word)
    requires Inv(net, s) && i in s.nodes
    ensures Linked(s.nodes[i])
    ensures forall h: nat :: 1 <= h <= s.nodes[i].current.index ==> BothAt(s.nodes[i], h)
  {
    hide Inv, BlockKey, Acceptable, Lists;
    forall h: nat | 1 <= h <= s.nodes[i].current.index
      ensures BothAt(s.nodes[i], h)
      ensures BlockAt(s.nodes[i], h).header.previousBlockHeader == BlockAt(s.nodes[i], h - 1).header.merkleRoot
      ensures BlockAt(s.nodes[i], h).header.version == BlockAt(s.nodes[i], 0).header.version
    {
      Stored(net, s, i, h);
      Stored(net, s, i, h - 1);
      Stored(net, s, i, 0);
    }
  }

  /** Between two states of a run: nothing stored is changed, CURRENT does not go back, and the log of
      applied transactions only grows. */
  ghost predicate Grows(n: Node, n': Node) {
    KeepsBlocks(n, n') && n.current.index <= n'.current.index && n.ledger.log <= n'.ledger.log
  }

  lemma TakeTurnGrows(net: Net, s: System, step: Step)
    requires Inv(net, s) && step.TakeTurn? && Enabled(net, s, step)
    ensures Grows(s.nodes[step.i], Do(net, s, step).nodes[step.i])
  {
    hide NodeInv, Propose, ProposerLoop, Acceptable, LedgerInv, PoolInv, HeldByCreator, WellFormed, MessageOk, BlockKey;
    hide IsSnapshot;
    var i, n := step.i, s.nodes[step.i];
    ProposeShape(n, i, step.order, step.signature, step.time);
    LedgerAndPool(net, Genuine(s), n);
    ProposerLoopInv(net, n.ledger, n.pool, step.order);
    var n' := Propose(n, i, step.order, step.signature, step.time).0;
    if !SameRecords(n, n') {
      AppendedGrows(net, Genuine(s), n, n', n'.current);
    }
  }

  lemma AppendedGrows(net: Net, genuine: set<Block>, n: Node, n': Node, b: Block)
    requires NodeInv(net, genuine, n) && Appended(n, n', b)
    ensures KeepsBlocks(n, n') && n.current.index <= n'.current.index
  {
    hide LedgerInv, PoolInv, AllSigned;
    NotStored(n, b.index);
  }

  lemma HandleBlockGrows(net: Net, s: System, step: Step)
    requires Inv(net, s) && step.HandleBlock? && Enabled(net, s, step)
    ensures Grows(s.nodes[step.i], Do(net, s, step).nodes[step.i])
  {
    hide NodeInv, HandleNewBlock, FollowerLoop, LedgerInv, PoolInv, HeldByCreator, WellFormed, MessageOk, BlockKey;
    hide RemoteOk;
    var n := s.nodes[step.i];
    BelowLimit(net, Genuine(s), n);
    HandleShape(net.env, n, step.block, step.remote);
    LedgerAndPool(net, Genuine(s), n);
    FollowerLoopInv(net, n.ledger, n.pool, step.block.txns, step.remote);
    var n' := HandleNewBlock(net.env, n, step.block, step.remote).0;
    if !SameRecords(n, n') {
      AppendedGrows(net, Genuine(s), n, n', step.block);
    }
  }

  lemma StepGrows(net: Net, s: System, step: Step, i: Word)
    requires Inv(net, s) && Enabled(net, s, step) && i in s.nodes
    ensures i in Do(net, s, step).nodes && Grows(s.nodes[i], Do(net, s, step).nodes[i])
  {
    hide Inv, Boot, Propose, HandleNewBlock;
    if i == step.i {
      match step {
        case TakeTurn(_, _, _, _, _) => TakeTurnGrows(net, s, step);
        case HandleBlock(_, _, _) => HandleBlockGrows(net, s, step);
        case Restart(_, _) => RestartInv(net, s, step);
        case _ =>
      }
    }
  }

  lemma {:induction false} RunGrows(net: Net, s: System, steps: seq<Step>, i: Word)
    requires Inv(net, s) && Legal(net, s, steps) && i in s.nodes
    ensures i in Execute(net, s, steps).nodes && Grows(s.nodes[i], Execute(net, s, steps).nodes[i])
    decreases |steps|
  {
    hide Inv, Enabled, Do;
    if steps != [] {
      StepGrows(net, s, steps[0], i);
      StepInv(net, s, steps[0]);
      RunGrows(net, Do(net, s, steps[0]), steps[1..], i);
    }
  }

  /** For every run: the trie of a node holds exactly block_0 .. block_CURRENT, each under its own key and,
      from height 1 on, signed; the blocks are linked; and nothing stored earlier was changed. */
  lemma ChainInEveryRun(net: Net, t1: Word, t2: Word, t3: Word, before: seq<Step>, after: seq<Step>, i: Word)
    requires Legal(net, Initial(net, t1, t2, t3), before) &&
             Legal(net, Execute(net, Initial(net, t1, t2, t3), before), after)
    requires 1 <= i <= 3
    ensures var s := Execute(net, Initial(net, t1, t2, t3), before);
            var s' := Execute(net, s, after);
            && i in s.nodes && i in s'.nodes && Grows(s.nodes[i], s'.nodes[i])
            && Contiguous(s'.nodes[i]) && AllSigned(s'.nodes[i]) && Linked(s'.nodes[i])
  {
    hide *;
    ReachableInv(net, t1, t2, t3, before);
    var s := Execute(net, Initial(net, t1, t2, t3), before);
    NodeOf(net, s, i);
    RunGrows(net, s, after, i);
    RunInv(net, s, after);
    InvLinked(net, Execute(net, s, after), i);
    ChainOf(net, Genuine(Execute(net, s, after)), Execute(net, s, after).nodes[i]) by {
      NodeOf(net, Execute(net, s, after), i);
    }
  }

  lemma ChainOf(net: Net, genuine: set<Block>, n: Node)
    requires NodeInv(net, genuine, n)
    ensures Contiguous(n) && AllSigned(n)
  {
  }

  // ---------- Creating blocks, signatures, genesis ----------

  /** A block is created above what its creator has heard of, in the creator's turn, and at a height at which no block
      exists yet unless it is height 1 or 2. */
  ghost predicate Informed(s: System, step: Step)
    requires step.TakeTurn? && step.i in s.nodes
  {
    var n := s.nodes[step.i];
    var p := Propose(n, step.i, step.order, step.signature, step.time).1;
    p.Proposed? ==>
      && n.last.index < p.block.index && TurnOf(step.i, p.block.index)
      && forall a :: a in s.created && a.index == p.block.index ==> a.index <= 2
  }

  lemma TurnIsInformed(net: Net, s: System, step: Step)
    requires Inv(net, s) && step.TakeTurn? && Enabled(net, s, step)
    ensures Informed(s, step)
  {
    hide Propose, Inv, IsSnapshot, Acceptable, TurnOf;
    var i, n := step.i, s.nodes[step.i];
    var p := Propose(n, i, step.order, step.signature, step.time).1;
    assert 1 <= i <= 3 by { hide *; InvNodes(net, s); }
    if p.Proposed? {
      DeclinesIff(n, i, step.order, step.signature, step.time);
      NothingThereYet(net, s, i);
    }
  }

  lemma InvNodes(net: Net, s: System)
    requires Inv(net, s)
    ensures s.nodes.Keys == {1, 2, 3}
  {
    hide NodeInv, WellFormed, HeldByCreator, MessageOk, IsGenesis;
  }

  /** In a node's turn from height 3 on there is no block of that height. */
  lemma NothingThereYet(net: Net, s: System, i: Word)
    requires Inv(net, s) && i in s.nodes && TurnOf(i, s.nodes[i].current.index + 1)
    ensures forall a :: a in s.created && a.index == s.nodes[i].current.index + 1 ==> a.index <= 2
  {
    hide Inv;
    InvNodes(net, s);
    forall a | a in s.created && a.index == s.nodes[i].current.index + 1
      ensures a.index <= 2
    {
      if a.index >= 3 {
        NothingPastNextTurn(net, s, i, a);
      }
    }
  }

  /** In every run: whoever creates a block has no LAST as high, and a second block for a height, which can only be
      height 1 or 2, comes from a node that had not heard of the first. */
  lemma InformedInEveryRun(net: Net, t1: Word, t2: Word, t3: Word, before: seq<Step>, step: Step)
    requires Legal(net, Initial(net, t1, t2, t3), before) && step.TakeTurn?
    requires Enabled(net, Execute(net, Initial(net, t1, t2, t3), before), step)
    ensures Informed(Execute(net, Initial(net, t1, t2, t3), before), step)
  {
    hide Legal, Execute, Initial, Inv, Informed;
    ReachableInv(net, t1, t2, t3, before);
    TurnIsInformed(net, Execute(net, Initial(net, t1, t2, t3), before), step);
  }

  /** In every run every stored block above genesis carries a signature that passes the check for its height. */
  lemma CheckedInEveryRun(net: Net, t1: Word, t2: Word, t3: Word, steps: seq<Step>, i: Word, h: Word)
    requires Legal(net, Initial(net, t1, t2, t3), steps) && 1 <= i <= 3
    ensures var s := Execute(net, Initial(net, t1, t2, t3), steps);
            i in s.nodes && (1 <= h <= s.nodes[i].current.index ==>
              "block_" + Decimal(h) in s.nodes[i].blocks &&
              Checks(net.env, h, s.nodes[i].blocks["block_" + Decimal(h)].header.signature))
  {
    hide Legal, Execute, Initial, Inv, Decimal, Checks, Acceptable, Lists;
    var s := Execute(net, Initial(net, t1, t2, t3), steps);
    ReachableInv(net, t1, t2, t3, steps);
    NodeOf(net, s, i);
    if 1 <= h <= s.nodes[i].current.index {
      Stored(net, s, i, h);
      AcceptableIff(net.env, h, BlockAt(s.nodes[i], h).header.signature);
    }
  }

  /** In every run each node keeps the genesis block that carries its own first start: nodes that were first started at
      different times never share height 0. */
  lemma GenesisInEveryRun(net: Net, t1: Word, t2: Word, t3: Word, steps: seq<Step>, i: Word)
    requires Legal(net, Initial(net, t1, t2, t3), steps) && 1 <= i <= 3
    ensures var s := Execute(net, Initial(net, t1, t2, t3), steps);
            && i in s.nodes && "block_0" in s.nodes[i].blocks
            && s.nodes[i].blocks["block_0"].header.time == (if i == 1 then t1 else if i == 2 then t2 else t3)
  {
    hide Legal, Execute, Inv, Boot;
    InitialInv(net, t1, t2, t3);
    RunGrows(net, Initial(net, t1, t2, t3), steps, i);
    FirstStart(if i == 1 then t1 else if i == 2 then t2 else t3, net.addressOf);
    assert "block_0" in Initial(net, t1, t2, t3).nodes[i].blocks;
  }

  // ---------- Ledgers ----------

  /** For every run and every node: each stored transaction took effect exactly once. The ledger is the
      initial one after the log, in order; the log repeats no ID and covers the transaction trie; and the
      accounts settle the stored transactions whatever the order was. */
  lemma ExactlyOnceInEveryRun(net: Net, t1: Word, t2: Word, t3: Word, steps: seq<Step>, i: Word)
    requires Legal(net, Initial(net, t1, t2, t3), steps) && 1 <= i <= 3
    ensures var s := Execute(net, Initial(net, t1, t2, t3), steps);
            i in s.nodes &&
            var l := s.nodes[i].ledger;
            Applies(EmptyLedger(A0(net)), l.log, l) && LogMatchesTrie(l) && l.accounts == Settle(A0(net), l.txs)
  {
    hide *;
    ReachableInv(net, t1, t2, t3, steps);
    var s := Execute(net, Initial(net, t1, t2, t3), steps);
    NodeOf(net, s, i);
    LedgerAndPool(net, Genuine(s), s.nodes[i]);
    SoundLedger(net, s.nodes[i].ledger);
  }

  /** Two nodes with the same stored transactions have the same accounts, whatever each went through. */
  lemma SameTransactionsSameAccounts(net: Net, s: System, i: Word, j: Word)
    requires Inv(net, s) && i in s.nodes && j in s.nodes
    requires s.nodes[i].ledger.txs == s.nodes[j].ledger.txs
    ensures s.nodes[i].ledger.accounts == s.nodes[j].ledger.accounts
  {
    hide LedgerInv, PoolInv, WellFormed, HeldByCreator, MessageOk;
    LedgerAndPool(net, Genuine(s), s.nodes[i]);
    LedgerAndPool(net, Genuine(s), s.nodes[j]);
    SoundLedger(net, s.nodes[i].ledger);
    SoundLedger(net, s.nodes[j].ledger);
    EqualTransactionsEqualAccounts(A0(net), s.nodes[i].ledger, s.nodes[j].ledger);
  }

  lemma SoundLedger(net: Net, l: Ledger)
    requires LedgerInv(net, l)
    ensures Sound(A0(net), l) && Applies(EmptyLedger(A0(net)), l.log, l)
    ensures LogMatchesTrie(l) && l.accounts == Settle(A0(net), l.txs)
  {
  }

  /** For every run: a node's supply is the initial supply plus the self-transfers it has applied, while that
      fits a uint64, and no recipient addition wrapped on the way. */
  lemma SupplyInEveryRun(net: Net, t1: Word, t2: Word, t3: Word, steps: seq<Step>, i: Word)
    requires Legal(net, Initial(net, t1, t2, t3), steps) && 1 <= i <= 3
    ensures var s := Execute(net, Initial(net, t1, t2, t3), steps);
            i in s.nodes &&
            var l := s.nodes[i].ledger;
            && (Supply(A0(net)) + SelfAmounts(l.log) < TWO_64 ==>
                  Supply(l.accounts) == Supply(A0(net)) + SelfAmounts(l.log) && NeverWraps(EmptyLedger(A0(net)), l.log))
            && ((forall k :: k in net.catalog ==> net.catalog[k].from != net.catalog[k].to) ==>
                  Supply(l.accounts) == Supply(A0(net)) <= 3 * TEST_BALANCE && NeverWraps(EmptyLedger(A0(net)), l.log))
  {
    hide *;
    ReachableInv(net, t1, t2, t3, steps);
    var s := Execute(net, Initial(net, t1, t2, t3), steps);
    NodeOf(net, s, i);
    LedgerAndPool(net, Genuine(s), s.nodes[i]);
    SupplyOfLedger(net, s.nodes[i].ledger);
  }

  lemma SupplyOfLedger(net: Net, l: Ledger)
    requires LedgerInv(net, l)
    ensures Supply(A0(net)) + SelfAmounts(l.log) < TWO_64 ==>
              Supply(l.accounts) == Supply(A0(net)) + SelfAmounts(l.log) && NeverWraps(EmptyLedger(A0(net)), l.log)
    ensures (forall k :: k in net.catalog ==> net.catalog[k].from != net.catalog[k].to) ==>
              Supply(l.accounts) == Supply(A0(net)) <= 3 * TEST_BALANCE && NeverWraps(EmptyLedger(A0(net)), l.log)
  {
    hide InitialAccounts, HexEncode, Settle;
    FirstBoot(0, net.addressOf);
    if forall k :: k in net.catalog ==> net.catalog[k].from != net.catalog[k].to {
      forall t | t in l.log
        ensures t.from != t.to
      {
        assert Issued(net, l.txs[t.id]);
      }
      NothingMinted(l.log);
    }
    if Supply(A0(net)) + SelfAmounts(l.log) < TWO_64 {
      SupplyExactly(EmptyLedger(A0(net)), l.log, l);
    }
  }
}
