// A legal run in which one block overtakes its predecessor, and two nodes that end with equal chains disagree on
// balances.

module Divergence {
  import opened Options
  import opened Words
  import opened Encoding
  import opened Transactions
  import opened Ledgers
  import opened Processing
  import opened Chain
  import opened Protocol
  import opened Agreement
  import opened Replication
  import opened CatchUp
  import opened Progress
  import opened Liveness
  import opened Scenarios

  // ---------- Three transfers between the test accounts ----------

  function Holder(net: Net, k: nat): string
    requires k < 3
  {
    net.addressOf(TEST_KEYS[k])
  }

  predicate DistinctHolders(net: Net) {
    Holder(net, 0) != Holder(net, 1) && Holder(net, 0) != Holder(net, 2) && Holder(net, 1) != Holder(net, 2)
  }

  /** `t` moves all that a test account starts with. */
  predicate Moves(net: Net, t: Transaction, from: nat, to: nat) {
    from < 3 && to < 3 && t.from == Holder(net, from) && t.to == Holder(net, to) && t.amount == TEST_BALANCE
  }

  /** There and back between the first two accounts, then from the first to the third. */
  ghost predicate Triangle(net: Net, t1: Transaction, t2: Transaction, t3: Transaction) {
    && DistinctHolders(net) && Issued(net, t1) && Issued(net, t2) && Issued(net, t3)
    && t1.id != t2.id && t1.id != t3.id && t2.id != t3.id
    && Moves(net, t1, 0, 1) && Moves(net, t2, 1, 0) && Moves(net, t3, 0, 2)
  }

  ghost predicate Has(net: Net, l: Ledger, a: int, b: int, c: int) {
    && KnowsAll(net, l) && A0(net).Keys == {Holder(net, 0), Holder(net, 1), Holder(net, 2)}
    && l.accounts[Holder(net, 0)].balance == a && l.accounts[Holder(net, 1)].balance == b
    && l.accounts[Holder(net, 2)].balance == c
  }

  lemma StartHas(net: Net)
    requires DistinctHolders(net)
    ensures Has(net, EmptyLedger(A0(net)), TEST_BALANCE, TEST_BALANCE, TEST_BALANCE)
  {
    hide TEST_KEYS;
    InitialWellKeyed(net);
  }

  function Pay(l: Ledger, t: Transaction): Ledger {
    if Takes(l, t) then Apply(l, t) else l
  }

  /** `l1` is `l` after `t`. */
  ghost predicate Paid(l: Ledger, t: Transaction, l1: Ledger) {
    Takes(l, t) && l1 == Apply(l, t) && l1.txs == l.txs[t.id := t]
  }

  lemma Forth(net: Net, l: Ledger, t: Transaction, a: int, b: int, c: int)
    requires DistinctHolders(net) && Moves(net, t, 0, 1) && Has(net, l, a, b, c) && b <= 3 * TEST_BALANCE
    ensures if t.id !in l.txs && a >= TEST_BALANCE
            then Paid(l, t, Pay(l, t)) && Has(net, Pay(l, t), a - TEST_BALANCE, b + TEST_BALANCE, c)
            else Pay(l, t) == l
  {
    hide InitialAccounts, TEST_KEYS;
  }

  lemma Back(net: Net, l: Ledger, t: Transaction, a: int, b: int, c: int)
    requires DistinctHolders(net) && Moves(net, t, 1, 0) && Has(net, l, a, b, c) && a <= 3 * TEST_BALANCE
    ensures if t.id !in l.txs && b >= TEST_BALANCE
            then Paid(l, t, Pay(l, t)) && Has(net, Pay(l, t), a + TEST_BALANCE, b - TEST_BALANCE, c)
            else Pay(l, t) == l
  {
    hide InitialAccounts, TEST_KEYS;
  }

  lemma Away(net: Net, l: Ledger, t: Transaction, a: int, b: int, c: int)
    requires DistinctHolders(net) && Moves(net, t, 0, 2) && Has(net, l, a, b, c) && c <= 3 * TEST_BALANCE
    ensures if t.id !in l.txs && a >= TEST_BALANCE
            then Paid(l, t, Pay(l, t)) && Has(net, Pay(l, t), a - TEST_BALANCE, b, c + TEST_BALANCE)
            else Pay(l, t) == l
  {
    hide InitialAccounts, TEST_KEYS;
  }

  // ---------- The meaning of the two blocks ----------

  lemma ReplayOne(net: Net, l: Ledger, t: Transaction)
    requires Issued(net, t)
    ensures ReplayIds(net.catalog, l, HexIds([t])) == Pay(l, t)
  {
    hide HexEncode, Apply, Takes;
    assert HexIds([t]) == [HexEncode(t.id)];
    assert ReplayIds(net.catalog, Pay(l, t), [HexEncode(t.id)][1..]) == Pay(l, t);
  }

  lemma ReplayTwo(net: Net, l: Ledger, t: Transaction, u: Transaction)
    requires Issued(net, t) && Issued(net, u)
    ensures ReplayIds(net.catalog, l, HexIds([t, u])) == Pay(Pay(l, t), u)
  {
    hide HexEncode, Apply, Takes;
    ReplayOne(net, Pay(l, t), u);
    assert [t, u][1..] == [u];
    assert HexIds([t, u]) == [HexEncode(t.id)] + HexIds([u]);
    assert HexIds([t, u])[1..] == HexIds([u]);
  }

  lemma AppliesOne(l: Ledger, t: Transaction, l1: Ledger)
    requires Paid(l, t, l1)
    ensures Applies(l, [t], l1)
  {
    hide Apply, Applicable;
    assert [t][1..] == [];
  }

  lemma AppliesTwo(l: Ledger, t: Transaction, l1: Ledger, u: Transaction, l2: Ledger)
    requires Paid(l, t, l1) && Paid(l1, u, l2)
    ensures Applies(l, [t, u], l2)
  {
    hide Apply, Applicable;
    AppliesOne(l1, u, l2);
    assert [t, u][1..] == [u];
  }

  /** The ledgers met on the way: in order, and with the second block first. */
  lemma BothOrders(net: Net, t1: Transaction, t2: Transaction, t3: Transaction)
    requires Triangle(net, t1, t2, t3)
    ensures var l := EmptyLedger(A0(net));
            var inOrder, early := Pay(Pay(Pay(l, t1), t2), t3), Pay(Pay(Pay(l, t3), t1), t2);
            && Paid(l, t1, Pay(l, t1)) && Paid(Pay(l, t1), t2, Pay(Pay(l, t1), t2))
            && Paid(Pay(Pay(l, t1), t2), t3, inOrder)
            && Pay(early, t3) == early
            && Has(net, inOrder, 0, TEST_BALANCE, 2 * TEST_BALANCE) && inOrder.txs.Keys == {t1.id, t2.id, t3.id}
            && Has(net, early, TEST_BALANCE, 0, 2 * TEST_BALANCE) && early.txs.Keys == {t2.id, t3.id}
  {
    hide Pay, Apply, Takes, Has, InitialAccounts, TEST_KEYS, Issued;
    var l, v := EmptyLedger(A0(net)), TEST_BALANCE;
    StartHas(net);
    var a1, e1 := Pay(l, t1), Pay(l, t3);
    Forth(net, l, t1, v, v, v);
    Away(net, l, t3, v, v, v);
    var a2, e2 := Pay(a1, t2), Pay(e1, t1);
    Back(net, a1, t2, 0, 2 * v, v);
    Forth(net, e1, t1, 0, v, 2 * v);
    var a3, e3 := Pay(a2, t3), Pay(e2, t2);
    Away(net, a2, t3, v, v, v);
    Back(net, e2, t2, 0, v, 2 * v);
    Away(net, e3, t3, v, 0, 2 * v);
  }

  // ---------- The run ----------

  /** Only node `i` differs, and only in what `n` says. */
  ghost predicate Became(s: System, s': System, i: Word, n: Node) {
    i in s.nodes && s' == Put(s, i, n)
  }

  lemma Enters(net: Net, s: System, i: Word, t: Transaction)
    requires Inv(net, s) && i in s.nodes && Issued(net, t) && t.from in A0(net) && HexEncode(t.id) !in s.nodes[i].pool
    ensures Enabled(net, s, AddTransaction(i, t))
    ensures var s' := Do(net, s, AddTransaction(i, t));
            Inv(net, s') && Became(s, s', i, s.nodes[i].(pool := s.nodes[i].pool[HexEncode(t.id) := t]))
  {
    hide NodeInv, WellFormed, HeldByCreator, MessageOk, InitialAccounts, HexEncode, Issued;
    LedgerAndPool(net, Genuine(s), s.nodes[i]);
    SameAccounts(net, s.nodes[i].ledger) by { hide LedgerInv; }
    StepInv(net, s, AddTransaction(i, t));
  }

  lemma FromInA0(net: Net, t: Transaction, from: nat, to: nat)
    requires Moves(net, t, from, to)
    ensures t.from in A0(net)
  {
    hide TEST_KEYS;
  }

  /** A block arrives before its predecessor. */
  lemma EarlyDelivery(net: Net, s: System, i: Word, b: Block, remote: Pool)
    requires Inv(net, s) && i in s.nodes && Delivered(s.soup, i, b) && b in s.created
    requires b.index > s.nodes[i].current.index + 1 && Covers(net, remote, b)
    ensures Enabled(net, s, HandleBlock(i, b, remote))
    ensures var s' := Do(net, s, HandleBlock(i, b, remote));
            && Inv(net, s') && i in s'.nodes && Became(s, s', i, s'.nodes[i]) && SameRecords(s.nodes[i], s'.nodes[i])
            && s'.nodes[i].ledger == ReplayIds(net.catalog, s.nodes[i].ledger, b.txns)
  {
    hide NodeInv, HeldByCreator, MessageOk, Acceptable, BlockKey, Lists, HandleNewBlock, ReplayIds, RemoteOk, Answered;
    var n, step := s.nodes[i], HandleBlock(i, b, remote);
    assert Enabled(net, s, step);
    StepInv(net, s, step);
    assert WellFormed(net, b);
    CoveredIsAnswered(net, n.ledger.txs, n.pool, remote, b.txns);
    assert b.txns[..|b.txns|] == b.txns;
    UnstoredBlock(net, Genuine(s), n, b, remote);
  }

  /** Node `i` stands at height `h` with an empty mempool and this ledger. */
  predicate Stands(n: Node, h: nat, l: Ledger) {
    At(n, h, h) && n.ledger == l
  }

  /** Node 2 has taken in the first two transfers and proposed them to node 3, which has stored the block; node 1
      has not heard of it. */
  ghost predicate Second(s: System, s': System, b: Block, l: Ledger) {
    && s.nodes.Keys == {1, 2, 3} == s'.nodes.Keys && s'.nodes[1] == s.nodes[1] && Stands(s'.nodes[3], 2, l)
    && s'.created == s.created + {b} && b.index == 2
  }

  lemma SecondBlock(net: Net, s: System, t1: Transaction, t2: Transaction, l: Ledger, l1: Ledger, l2: Ledger,
                    signature: string)
    returns (b: Block, steps: seq<Step>)
    requires Inv(net, s) && Level(s, 1) && s.nodes[2].ledger == l && s.nodes[3].ledger == l
    requires Issued(net, t1) && Issued(net, t2) && t1.id != t2.id && t1.from in A0(net) && t2.from in A0(net)
    requires Paid(l, t1, l1) && Paid(l1, t2, l2) && Pay(Pay(l, t1), t2) == l2 && Acceptable(net.env, 2, signature)
    ensures Legal(net, s, steps)
    ensures Inv(net, Execute(net, s, steps)) && Second(s, Execute(net, s, steps), b, l2) && b.txns == HexIds([t1, t2])
  {
    hide Inv, Legal, Execute, Acceptable, Enabled, Do, Issued, InitialAccounts, BlockKey, Covers, Pay, Paid, ReplayIds;
    hide HexIds;
    hide Tries, FollowerLoop;
    var run;
    b, run := SecondProposed(net, s, t1, t2, l, l1, l2, signature);
    var s1 := Execute(net, s, run);
    var step := HandleBlock(3, b, Tries(s1));
    TriesCover(net, s1, b);
    Delivery(net, s1, 3, b, Tries(s1));
    ReplayTwo(net, l, t1, t2);
    EmptyPoolStays(net, s1, 3, b, Tries(s1));
    ExecuteOne(net, s1, step);
    ExecuteAppend(net, s, run, [step]);
    steps := run + [step];
  }

  lemma SecondProposed(net: Net, s: System, t1: Transaction, t2: Transaction, l: Ledger, l1: Ledger, l2: Ledger,
                       signature: string)
    returns (b: Block, steps: seq<Step>)
    requires Inv(net, s) && Level(s, 1) && s.nodes[2].ledger == l
    requires Issued(net, t1) && Issued(net, t2) && t1.id != t2.id && t1.from in A0(net) && t2.from in A0(net)
    requires Paid(l, t1, l1) && Paid(l1, t2, l2) && Acceptable(net.env, 2, signature)
    ensures Legal(net, s, steps)
    ensures var s' := Execute(net, s, steps);
            && Inv(net, s') && s'.nodes.Keys == s.nodes.Keys && s'.nodes[1] == s.nodes[1] && s'.nodes[3] == s.nodes[3]
            && s'.created == s.created + {b} && s'.soup == s.soup + {BlockProposal(3, b)}
    ensures b.index == 2 && b.txns == HexIds([t1, t2])
  {
    hide Inv, Legal, Execute, Acceptable, Enabled, Do, Issued, InitialAccounts, HexEncode, Eligible, BlockKey;
    hide IsSnapshot, Paid, HexIds, Applies, ProposerLoop;
    HexEncodeInjective(t1.id, t2.id);
    var in1, in2, turn := AddTransaction(2, t1), AddTransaction(2, t2), TakeTurn(2, 3, [t1, t2], Some(signature), 0);
    Enters(net, s, 2, t1);
    var s1 := Do(net, s, in1);
    Enters(net, s1, 2, t2);
    var s2 := Do(net, s1, in2);
    TwoEntries(t1, t2);
    AppliesTwo(l, t1, l1, t2, l2);
    TurnSchedule(2);
    b := FullTurn(net, s2, 2, 3, [t1, t2], l2, signature, 0);
    ExecuteThree(net, s, in1, in2, turn);
    steps := [in1, in2, turn];
  }

  lemma TwoEntries(t: Transaction, u: Transaction)
    requires t.id != u.id
    ensures IsSnapshot(map[][HexEncode(t.id) := t][HexEncode(u.id) := u], [t, u])
  {
    hide HexEncode;
    HexEncodeInjective(t.id, u.id);
    OneEntry(t);
    SnapshotAdd(map[][HexEncode(t.id) := t], [t], u);
    assert [t] + [u] == [t, u];
  }

  lemma OneEntry(t: Transaction)
    ensures IsSnapshot(map[][HexEncode(t.id) := t], [t])
  {
    hide HexEncode;
    SnapshotAdd(map[], [], t);
    assert [] + [t] == [t];
  }

  /** A follower call does not fill a mempool. */
  lemma EmptyPoolStays(net: Net, s: System, i: Word, b: Block, remote: Pool)
    requires Inv(net, s) && i in s.nodes && s.nodes[i].pool == map[] && Covers(net, remote, b)
    ensures FollowerLoop(Follower(s.nodes[i].ledger, s.nodes[i].pool, None), b.txns, remote).pool == map[]
  {
    hide NodeInv, WellFormed, HeldByCreator, MessageOk, LedgerInv, PoolInv, FollowerLoop, RemoteOk;
    LedgerAndPool(net, Genuine(s), s.nodes[i]);
    FollowerPoolShrinks(net, s.nodes[i].ledger, s.nodes[i].pool, b.txns, remote);
    var pool := FollowerLoop(Follower(s.nodes[i].ledger, s.nodes[i].pool, None), b.txns, remote).pool;
    assert pool.Keys == {};
  }

  /** Node 3 has proposed the third transfer, on top of the second block, to node 1. */
  ghost predicate Third(s: System, s': System, b: Block, l: Ledger) {
    && s.nodes.Keys == {1, 2, 3} == s'.nodes.Keys && s'.nodes[1] == s.nodes[1]
    && s'.nodes[3].current.index == 3 == s'.nodes[3].last.index && s'.nodes[3].ledger == l
    && s'.created == s.created + {b} && s'.soup == s.soup + {BlockProposal(1, b)} && b.index == 3
  }

  lemma ThirdBlock(net: Net, s: System, t: Transaction, l: Ledger, l1: Ledger, signature: string)
    returns (b: Block, steps: seq<Step>)
    requires Inv(net, s) && s.nodes.Keys == {1, 2, 3} && Stands(s.nodes[3], 2, l)
    requires Issued(net, t) && t.from in A0(net) && Paid(l, t, l1) && Acceptable(net.env, 3, signature)
    ensures Legal(net, s, steps)
    ensures Inv(net, Execute(net, s, steps)) && Third(s, Execute(net, s, steps), b, l1) && b.txns == HexIds([t])
  {
    hide Inv, Legal, Execute, Acceptable, Enabled, Do, Issued, InitialAccounts, HexEncode, Eligible, BlockKey;
    hide IsSnapshot, Paid, HexIds, Applies;
    Enters(net, s, 3, t);
    var s1 := Do(net, s, AddTransaction(3, t));
    OneEntry(t);
    AppliesOne(l, t, l1);
    TurnSchedule(3);
    b := FullTurn(net, s1, 3, 1, [t], l1, signature, 0);
    var turn := TakeTurn(3, 1, [t], Some(signature), 0);
    ExecuteOne(net, s, AddTransaction(3, t));
    ExecuteOne(net, s1, turn);
    ExecuteAppend(net, s, [AddTransaction(3, t)], [turn]);
    steps := [AddTransaction(3, t)] + [turn];
  }

  /** Created blocks are told apart by their heights. */
  ghost predicate OnePerHeight(s: System) {
    forall a, b :: a in s.created && b in s.created && a.index == b.index ==> a == b
  }

  /** The third block reaches node 1 before the second one; then node 1 catches up with node 3. */
  lemma OvertakenDeliveries(net: Net, s: System, b2: Block, b3: Block) returns (steps: seq<Step>)
    requires Inv(net, s) && s.nodes.Keys == {1, 2, 3} && s.nodes[1].current.index == 1
    requires s.nodes[3].current.index == 3 == s.nodes[3].last.index && s.nodes[1].last.index < 3
    requires b2 in s.created && b3 in s.created && BlockProposal(1, b3) in s.soup && OnePerHeight(s)
    requires b2.index == 2 && b3.index == 3
    ensures Legal(net, s, steps)
    ensures var s', l := Execute(net, s, steps), ReplayIds(net.catalog, s.nodes[1].ledger, b3.txns);
            && Inv(net, s') && s'.nodes.Keys == s.nodes.Keys && s'.nodes[3] == s.nodes[3] && s'.created == s.created
            && s'.nodes[1].current.index == 3
            && s'.nodes[1].ledger == ReplayIds(net.catalog, ReplayIds(net.catalog, l, b2.txns), b3.txns)
  {
    hide Inv, Legal, Execute, Enabled, Do, BlockKey, Covers, ReplayIds, Tries, Advanced, CanFollow, OnePerHeight;
    hide OnlyNode;
    var early := HandleBlock(1, b3, Tries(s));
    TriesCover(net, s, b3);
    EarlyDelivery(net, s, 1, b3, Tries(s));
    var s1 := Do(net, s, early);
    ExecuteOne(net, s, early);
    SameCreated(s, s1);
    var learn := LearnLast(net, s1, 1, 3);
    var s2 := Execute(net, s1, learn);
    OnlyNodeKeeps(s1, s2, 1);
    FullFollow(net, s2, 1, 3);
    var first, s3 := NextRound(net, s2, b2, Tries(s2));
    var second, s4 := NextRound(net, s3, b3, Tries(s2));
    ExecuteAppend(net, s2, first, second);
    ExecuteAppend(net, s1, learn, first + second);
    ExecuteAppend(net, s, [early], learn + (first + second));
    steps := [early] + (learn + (first + second));
  }

  lemma SameCreated(s: System, s': System)
    requires s'.created == s.created
    ensures OnePerHeight(s) ==> OnePerHeight(s')
  {
  }

  lemma OnlyNodeKeeps(s: System, s': System, i: Word)
    requires OnlyNode(s, s', i)
    ensures s'.nodes.Keys == s.nodes.Keys && s'.created == s.created
    ensures forall j :: j in s.nodes && j != i ==> s'.nodes[j] == s.nodes[j]
    ensures OnePerHeight(s) ==> OnePerHeight(s')
  {
  }

  /** Node 1 takes one more block over from node 3. */
  lemma NextRound(net: Net, s: System, b: Block, remote: Pool) returns (steps: seq<Step>, s': System)
    requires Inv(net, s) && CanFollow(net, s, 1, 3, remote) && b in s.created && OnePerHeight(s)
    requires s.nodes[1].current.index < s.nodes[1].last.index && b.index == s.nodes[1].current.index + 1
    ensures Legal(net, s, steps) && s' == Execute(net, s, steps) && Inv(net, s') && CanFollow(net, s', 1, 3, remote)
    ensures s'.nodes.Keys == s.nodes.Keys && s'.created == s.created && OnePerHeight(s') && s'.nodes[3] == s.nodes[3]
    ensures s'.nodes[1].current.index == b.index && s'.nodes[1].last == s.nodes[1].last
    ensures s'.nodes[1].ledger == ReplayIds(net.catalog, s.nodes[1].ledger, b.txns)
  {
    hide Inv, Legal, Execute, BlockKey, Covers, ReplayIds, Replicated, KeepsBlocks, WellFormed, Round;
    FollowOn(net, s, 1, 3, remote);
    steps := Round(s, 1, 3, remote);
    s' := Execute(net, s, steps);
    Stored(net, s', 1, b.index);
    CurrentIsStored(net, s', 1);
  }

  /** Then nodes at height 3 hold the same blocks. */
  lemma EqualChains(net: Net, s: System, i: Word, j: Word)
    requires Inv(net, s) && i in s.nodes && j in s.nodes && s.nodes[i].current.index == 3 == s.nodes[j].current.index
    requires OnePerHeight(s)
    ensures forall h: nat :: 1 <= h <= 3 ==> CopiedAt(s.nodes[i], s.nodes[j], h)
  {
    hide Inv, BlockKey, WellFormed;
    forall h: nat | 1 <= h <= 3
      ensures CopiedAt(s.nodes[i], s.nodes[j], h)
    {
      Stored(net, s, i, h);
      Stored(net, s, j, h);
    }
  }

  /** From level 1, where all have ledger `l`: block 2 lists the first two transfers and block 3 the third, and node 1
      handles block 3 before block 2. */
  lemma Overtaking(net: Net, s: System, t1: Transaction, t2: Transaction, t3: Transaction, l: Ledger,
                   sig2: string, sig3: string)
    returns (steps: seq<Step>)
    requires Inv(net, s) && Level(s, 1) && OnePerHeight(s) && forall b :: b in s.created ==> b.index == 1
    requires forall i :: i in s.nodes ==> s.nodes[i].ledger == l
    requires Issued(net, t1) && Issued(net, t2) && Issued(net, t3) && t1.id != t2.id
    requires t1.from in A0(net) && t2.from in A0(net) && t3.from in A0(net)
    requires Paid(l, t1, Pay(l, t1)) && Paid(Pay(l, t1), t2, Pay(Pay(l, t1), t2))
    requires Paid(Pay(Pay(l, t1), t2), t3, Pay(Pay(Pay(l, t1), t2), t3))
    requires Acceptable(net.env, 2, sig2) && Acceptable(net.env, 3, sig3)
    ensures Legal(net, s, steps)
    ensures var s' := Execute(net, s, steps);
            && Inv(net, s') && s'.nodes.Keys == {1, 2, 3} && OnePerHeight(s')
            && s'.nodes[1].current.index == 3 == s'.nodes[3].current.index
            && s'.nodes[3].ledger == Pay(Pay(Pay(l, t1), t2), t3)
            && s'.nodes[1].ledger == Pay(Pay(Pay(Pay(l, t3), t1), t2), t3)
  {
    hide Inv, Legal, Execute, Acceptable, Issued, InitialAccounts, HexEncode, BlockKey, Pay, Paid, ReplayIds, HexIds;
    var l1, l2 := Pay(l, t1), Pay(Pay(l, t1), t2);
    var b2, run2 := SecondBlock(net, s, t1, t2, l, l1, l2, sig2);
    var s2 := Execute(net, s, run2);
    var b3, run3 := ThirdBlock(net, s2, t3, l2, Pay(l2, t3), sig3);
    var s3 := Execute(net, s2, run3);
    var run4 := OvertakenDeliveries(net, s3, b2, b3);
    ReplayOne(net, l, t3);
    ReplayTwo(net, Pay(l, t3), t1, t2);
    ReplayOne(net, Pay(Pay(Pay(l, t3), t1), t2), t3);
    SameCreated(s3, Execute(net, s3, run4));
    ExecuteAppend(net, s2, run3, run4);
    ExecuteAppend(net, s, run2, run3 + run4);
    steps := run2 + (run3 + run4);
  }

  /** For any three issued transfers of this shape there is a legal run, with every lookup answered and no turn
      failing, after which nodes 1 and 3 hold equal blocks 1 to 3 but disagree on the balances of two accounts and
      on the stored transactions. All that is disorderly is one block that overtook its predecessor. */
  lemma EarlyBlockDiverges(net: Net, t1: Transaction, t2: Transaction, t3: Transaction) returns (steps: seq<Step>)
    requires CanSign(net) && Triangle(net, t1, t2, t3)
    ensures Legal(net, Initial(net, 0, 0, 0), steps)
    ensures var s := Execute(net, Initial(net, 0, 0, 0), steps);
            && s.nodes.Keys == {1, 2, 3} && s.nodes[1].current.index == 3 == s.nodes[3].current.index
            && (forall h: nat :: 1 <= h <= 3 ==> CopiedAt(s.nodes[1], s.nodes[3], h))
            && Has(net, s.nodes[3].ledger, 0, TEST_BALANCE, 2 * TEST_BALANCE)
            && s.nodes[3].ledger.txs.Keys == {t1.id, t2.id, t3.id}
            && Has(net, s.nodes[1].ledger, TEST_BALANCE, 0, 2 * TEST_BALANCE)
            && s.nodes[1].ledger.txs.Keys == {t2.id, t3.id}
  {
    hide Inv, Legal, Execute, Initial, Acceptable, Issued, InitialAccounts, HexEncode, BlockKey, Pay, Paid, Has;
    hide ReplayIds, HexIds, EmptyLedger, CopiedAt, TEST_KEYS, Moves;
    var s0 := Initial(net, 0, 0, 0);
    BothOrders(net, t1, t2, t3);
    FromInA0(net, t1, 0, 1);
    FromInA0(net, t2, 1, 0);
    FromInA0(net, t3, 0, 2);
    var b1, first := FirstBlockEverywhere(net);
    var s1 := Execute(net, s0, first);
    assert CanSignAt(net, 2) && CanSignAt(net, 3);
    var sig2 :| Acceptable(net.env, 2, sig2);
    var sig3 :| Acceptable(net.env, 3, sig3);
    var rest := Overtaking(net, s1, t1, t2, t3, EmptyLedger(A0(net)), sig2, sig3);
    EqualChains(net, Execute(net, s1, rest), 1, 3);
    ExecuteAppend(net, s0, first, rest);
    steps := first + rest;
  }

  // ---------- A turn that fails half way ----------

  /** Node 1 still stands at height 0, with ledger `l` and an empty mempool; nothing else happened. */
  ghost predicate HalfDone(s: System, s': System, l: Ledger) {
    && s.nodes.Keys == {1, 2, 3} == s'.nodes.Keys && s'.created == s.created && s'.readers == s.readers
    && s'.nodes[2] == s.nodes[2] && s'.nodes[3] == s.nodes[3] && Stands(s'.nodes[1], 0, l)
  }

  /** Node 1 takes in a good transfer and one to an account that does not exist; its turn applies the first and
      stops at the second. */
  lemma FailingTurn(net: Net, s: System, t: Transaction, u: Transaction, signature: string) returns (steps: seq<Step>)
    requires Inv(net, s) && Level(s, 0) && s.nodes[1].ledger == EmptyLedger(A0(net)) &&
             Acceptable(net.env, 1, signature)
    requires Issued(net, t) && Issued(net, u) && t.id != u.id && u.from in A0(net) && u.to !in A0(net)
    requires DistinctHolders(net) && Moves(net, t, 0, 1)
    ensures Legal(net, s, steps)
    ensures Inv(net, Execute(net, s, steps)) && HalfDone(s, Execute(net, s, steps), Pay(EmptyLedger(A0(net)), t))
  {
    hide Inv, Legal, Execute, Acceptable, Issued, InitialAccounts, HexEncode, Eligible, BlockKey, IsSnapshot, Moves;
    hide TEST_KEYS, Enabled, Do, Pay, Paid;
    hide ProposerLoop, EmptyLedger;
    var l, l1 := EmptyLedger(A0(net)), Pay(EmptyLedger(A0(net)), t);
    FirstTransferTakes(net, t);
    FromInA0(net, t, 0, 1);
    HexEncodeInjective(t.id, u.id);
    var in1, in2, turn := AddTransaction(1, t), AddTransaction(1, u), TakeTurn(1, 2, [t, u], Some(signature), 0);
    Enters(net, s, 1, t);
    var s1 := Do(net, s, in1);
    Enters(net, s1, 1, u);
    var s2 := Do(net, s1, in2);
    TwoEntries(t, u);
    FailsHalfWay(l, t, u, l1);
    TurnFails(net, s2, [t, u], signature, l1);
    StepInv(net, s2, turn);
    ExecuteThree(net, s, in1, in2, turn);
    steps := [in1, in2, turn];
  }

  lemma FirstTurnIsOpen(n: Node)
    requires At(n, 0, 0)
    ensures CanPropose(n, 1)
  {
    TurnSchedule(1);
  }

  lemma FirstTransferTakes(net: Net, t: Transaction)
    requires DistinctHolders(net) && Moves(net, t, 0, 1)
    ensures var l := EmptyLedger(A0(net));
            Paid(l, t, Pay(l, t)) && Pay(l, t).accounts.Keys == A0(net).Keys && l.txs == map[]
  {
    hide TEST_KEYS, InitialAccounts;
    StartHas(net);
    ApplyKeepsKeys(EmptyLedger(A0(net)), t);
  }

  /** The loop applies the first entry and stops at the second, and both leave the mempool. */
  lemma FailsHalfWay(l: Ledger, t: Transaction, u: Transaction, l1: Ledger)
    requires Paid(l, t, l1) && u.id != t.id && u.id !in l.txs && u.from in l1.accounts && u.to !in l1.accounts
    ensures var pool := map[][HexEncode(t.id) := t][HexEncode(u.id) := u];
            ProposerLoop(StartProposer(l, pool), [t, u])
            == Proposer(l1, map[], [HexEncode(t.id)], Some(UnknownRecipient))
  {
    hide HexEncode, Apply;
    HexEncodeInjective(t.id, u.id);
    var pool := map[][HexEncode(t.id) := t][HexEncode(u.id) := u];
    var p := StartProposer(l, pool);
    var p1 := ProposerStep(p, t);
    assert p1 == Proposer(l1, pool - {HexEncode(t.id)}, [HexEncode(t.id)], None);
    var p2 := ProposerStep(p1, u);
    assert pool - {HexEncode(t.id)} - {HexEncode(u.id)} == map[];
    assert p2 == Proposer(l1, map[], [HexEncode(t.id)], Some(UnknownRecipient));
    assert [t, u][1..] == [u] && [u][1..] == [];
    assert ProposerLoop(p1, [u]) == ProposerLoop(p2, []);
  }

  lemma TurnFails(net: Net, s: System, order: seq<Transaction>, signature: string, l: Ledger)
    requires Inv(net, s) && s.nodes.Keys == {1, 2, 3} == s.readers.Keys &&
             s.nodes[1].current.index == 0 == s.nodes[1].last.index
    requires IsSnapshot(s.nodes[1].pool, order) && Acceptable(net.env, 1, signature)
    requires var q := ProposerLoop(StartProposer(s.nodes[1].ledger, s.nodes[1].pool), order);
             q.fault.Some? && q.ledger == l && q.pool == map[]
    ensures Enabled(net, s, TakeTurn(1, 2, order, Some(signature), 0))
    ensures Do(net, s, TakeTurn(1, 2, order, Some(signature), 0)) == Put(s, 1, s.nodes[1].(ledger := l, pool := map[]))
  {
    hide Inv, ProposerLoop, IsSnapshot, Acceptable, BlockKey, NextBlock, SaveBlock;
    TurnSchedule(1);
  }

  /** For any such pair of issued transactions there is a legal run in which a turn of node 1 fails half way, after
      which nodes 1 and 2 hold the same block 1 with different balances: a transfer took effect that no block lists. */
  lemma FailedTurnDiverges(net: Net, t: Transaction, u: Transaction) returns (steps: seq<Step>)
    requires CanSign(net) && DistinctHolders(net) && Moves(net, t, 0, 1)
    requires Issued(net, t) && Issued(net, u) && t.id != u.id && u.from in A0(net) && u.to !in A0(net)
    ensures Legal(net, Initial(net, 0, 0, 0), steps)
    ensures var s := Execute(net, Initial(net, 0, 0, 0), steps);
            && s.nodes.Keys == {1, 2, 3} && s.nodes[1].current.index == 1 == s.nodes[2].current.index
            && s.nodes[1].current == s.nodes[2].current && s.nodes[1].current.txns == []
            && Has(net, s.nodes[1].ledger, 0, 2 * TEST_BALANCE, TEST_BALANCE) && s.nodes[1].ledger.txs.Keys == {t.id}
            && Has(net, s.nodes[2].ledger, TEST_BALANCE, TEST_BALANCE, TEST_BALANCE) && s.nodes[2].ledger.txs == map[]
  {
    hide Inv, Legal, Execute, Initial, Acceptable, Issued, InitialAccounts, HexEncode, BlockKey, Has, Apply, Moves;
    hide TEST_KEYS, Do, Enabled, CanPropose;
    var s0, l := Initial(net, 0, 0, 0), EmptyLedger(A0(net));
    Fresh(net);
    assert CanSignAt(net, 1);
    var signature :| Acceptable(net.env, 1, signature);
    var failing := FailingTurn(net, s0, t, u, signature);
    var s1 := Execute(net, s0, failing);
    FirstTurnIsOpen(s1.nodes[1]);
    var b := EmptyTurn(net, s1, 1, 2, signature, 0);
    var turn, to2 := TakeTurn(1, 2, [], Some(signature), 0), HandleBlock(2, b, map[]);
    var s2 := Do(net, s1, turn);
    EmptyDelivery(net, s2, 2, b);
    ExecuteOne(net, s1, turn);
    ExecuteOne(net, s2, to2);
    ExecuteAppend(net, s1, [turn], [to2]);
    ExecuteAppend(net, s0, failing, [turn] + [to2]);
    steps := failing + ([turn] + [to2]);
    StartHas(net);
    Forth(net, l, t, TEST_BALANCE, TEST_BALANCE, TEST_BALANCE);
  }
}
