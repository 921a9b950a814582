// Properties that fail, with the runs that break them, and exactly when they hold.

module Scenarios {
  import opened Options
  import opened Words
  import opened Encoding
  import opened Transactions
  import opened Ledgers
  import opened Processing
  import opened Chain
  import opened Protocol
  import opened Agreement
  import opened Replication
  import opened CatchUp
  import opened Progress
  import opened Liveness

  /** Node `i` put `b` on top; the other nodes and all handlers are as before. */
  ghost predicate Extended(s: System, s': System, i: Word, b: Block) {
    && i in s.nodes && s'.nodes.Keys == s.nodes.Keys && s'.readers == s.readers
    && (forall j :: j in s.nodes && j != i ==> s'.nodes[j] == s.nodes[j])
    && Appended(s.nodes[i], s'.nodes[i], b)
  }

  /** `b` went on top; ledger and mempool are as before. */
  ghost predicate GotTop(n: Node, n': Node, b: Block) {
    Appended(n, n', b) && n'.pool == n.pool && n'.ledger == n.ledger
  }

  ghost predicate OnTop(s: System, s': System, i: Word, b: Block) {
    Extended(s, s', i, b) && GotTop(s.nodes[i], s'.nodes[i], b)
  }

  /** When every entry of the snapshot can be applied, the loop applies and lists them all. */
  lemma {:induction false} ProposerTakesAll(p: Proposer, order: seq<Transaction>, r: Ledger)
    requires p.fault.None? && Applies(p.ledger, order, r)
    ensures var q := ProposerLoop(p, order); q.ledger == r && q.ids == p.ids + HexIds(order) && q.fault == None
    decreases |order|
  {
    hide HexEncode, Apply, ProposerStep, Applicable;
    if order != [] {
      ProposerStepIsTurn(p, order[0]);
      ProposerTakesAll(ProposerStep(p, order[0]), order[1..], r);
      assert HexIds(order) == [HexEncode(order[0].id)] + HexIds(order[1..]);
      ConcatAssociates(p.ids, [HexEncode(order[0].id)], HexIds(order[1..]));
    }
  }

  /** A node takes its turn with a mempool that can be applied in full, in this order. */
  lemma FullTurn(net: Net, s: System, i: Word, to: Word, order: seq<Transaction>, r: Ledger, signature: string,
                 time: Word)
    returns (b: Block)
    requires Inv(net, s) && Peers(s, i, to) && CanPropose(s.nodes[i], i)
    requires IsSnapshot(s.nodes[i].pool, order) && Applies(s.nodes[i].ledger, order, r)
    requires s.nodes[i].current.index + 2 < TWO_64 && Acceptable(net.env, s.nodes[i].current.index + 1, signature)
    ensures Enabled(net, s, TakeTurn(i, to, order, Some(signature), time))
    ensures var s' := Do(net, s, TakeTurn(i, to, order, Some(signature), time));
            && Inv(net, s') && Extended(s, s', i, b) && s'.nodes[i].ledger == r
            && s'.nodes[i].pool == ProposerLoop(StartProposer(s.nodes[i].ledger, s.nodes[i].pool), order).pool
            && s'.soup == s.soup + {BlockProposal(to, b)} && s'.created == s.created + {b}
    ensures b.txns == HexIds(order) && b.header.time == time
  {
    hide NodeInv, WellFormed, HeldByCreator, MessageOk, Acceptable, Eligible, BlockKey, HexEncode, IsGenesis;
    hide ProposerLoop, Applies, IsSnapshot, HexIds;
    var n, step := s.nodes[i], TakeTurn(i, to, order, Some(signature), time);
    assert Enabled(net, s, step);
    StepInv(net, s, step);
    ProposerTakesAll(StartProposer(n.ledger, n.pool), order, r);
    ProposeSucceeds(n, i, order, Some(signature), time);
    ProposeShape(n, i, order, Some(signature), time);
    b := Propose(n, i, order, Some(signature), time).1.block;
  }

  lemma EmptyTurn(net: Net, s: System, i: Word, to: Word, signature: string, time: Word) returns (b: Block)
    requires Inv(net, s) && Peers(s, i, to) && s.nodes[i].pool == map[] && CanPropose(s.nodes[i], i)
    requires s.nodes[i].current.index + 2 < TWO_64 && Acceptable(net.env, s.nodes[i].current.index + 1, signature)
    ensures Enabled(net, s, TakeTurn(i, to, [], Some(signature), time))
    ensures var s' := Do(net, s, TakeTurn(i, to, [], Some(signature), time));
            && Inv(net, s') && OnTop(s, s', i, b)
            && s'.soup == s.soup + {BlockProposal(to, b)} && s'.created == s.created + {b}
    ensures b.txns == [] && b.header.time == time
  {
    hide Inv, Acceptable, CanPropose, Enabled, Do, Appended;
    var n := s.nodes[i];
    b := FullTurn(net, s, i, to, [], n.ledger, signature, time);
    assert b.txns == [];
  }

  /** A block arrives at a node that needs it next and can look its transactions up. */
  lemma Delivery(net: Net, s: System, i: Word, b: Block, remote: Pool)
    requires Inv(net, s) && i in s.nodes && Delivered(s.soup, i, b)
    requires b.index == s.nodes[i].current.index + 1 && Covers(net, remote, b)
    ensures Enabled(net, s, HandleBlock(i, b, remote))
    ensures var s' := Do(net, s, HandleBlock(i, b, remote));
            && Inv(net, s') && Extended(s, s', i, b) && s'.soup == s.soup && s'.created == s.created
            && s'.nodes[i].ledger == ReplayIds(net.catalog, s.nodes[i].ledger, b.txns)
            && s'.nodes[i].pool == FollowerLoop(Follower(s.nodes[i].ledger, s.nodes[i].pool, None), b.txns, remote).pool
  {
    hide NodeInv, HeldByCreator, Acceptable, BlockKey, Lists, Contiguous, HandleNewBlock, FollowerLoop, ReplayIds;
    hide WellFormed;
    hide RemoteOk, KnowsAll, LedgerInv, PoolInv;
    var n, step := s.nodes[i], HandleBlock(i, b, remote);
    assert Enabled(net, s, step);
    StepInv(net, s, step);
    DeliveredBlock(net, s, i, b, remote);
  }

  /** What handling does to the one node, from the invariant. */
  lemma DeliveredBlock(net: Net, s: System, i: Word, b: Block, remote: Pool)
    requires Inv(net, s) && i in s.nodes && Delivered(s.soup, i, b)
    requires b.index == s.nodes[i].current.index + 1 && Covers(net, remote, b)
    ensures var n, n' := s.nodes[i], HandleNewBlock(net.env, s.nodes[i], b, remote).0;
            && Appended(n, n', b)
            && n'.ledger == ReplayIds(net.catalog, n.ledger, b.txns)
            && n'.pool == FollowerLoop(Follower(n.ledger, n.pool, None), b.txns, remote).pool
  {
    hide HeldByCreator, Acceptable, BlockKey, Lists, HandleNewBlock, FollowerLoop, ReplayIds, NodeInv, RemoteOk;
    hide Answered, Replicated;
    var n := s.nodes[i];
    DeliveredIsGenuine(net, s, i, b);
    GenuineIsCreated(net, s, b);
    BelowLimit(net, Genuine(s), n);
    CoveredIsAnswered(net, n.ledger.txs, n.pool, remote, b.txns);
    HandleNextReplicates(net, Genuine(s), n, b, remote);
    HandleShape(net.env, n, b, remote);
  }

  lemma EmptyDelivery(net: Net, s: System, i: Word, b: Block)
    requires Inv(net, s) && i in s.nodes && Delivered(s.soup, i, b)
    requires b.txns == [] && b.index == s.nodes[i].current.index + 1
    ensures Enabled(net, s, HandleBlock(i, b, map[]))
    ensures var s' := Do(net, s, HandleBlock(i, b, map[]));
            Inv(net, s') && OnTop(s, s', i, b) && s'.soup == s.soup && s'.created == s.created
  {
    hide Inv, Enabled, Do, Appended;
    Delivery(net, s, i, b, map[]);
  }

  /** The message names no block of height `f` or more. */
  predicate BelowHeight(m: Message, f: nat) {
    match m
    case BlockResponse(_, b) => b.index < f
    case BlockProposal(_, b) => b.index < f
    case LastResponse(_, b) => b.index < f
    case BlockRequest(_, _, key) => KeyHeight(key) < f
    case LastRequest(_, _) => true
  }

  /** Messages were added, all of them below this height. */
  ghost predicate NewBelow(soup: set<Message>, soup': set<Message>, f: nat) {
    soup <= soup' && forall m :: m in soup' ==> m in soup || BelowHeight(m, f)
  }

  /** Node `k` asks node `i`, which is one height ahead, for its LAST, and then for that block. */
  lemma EmptyFetch(net: Net, s: System, k: Word, i: Word, b: Block) returns (steps: seq<Step>)
    requires Inv(net, s) && Peers(s, k, i) && s.nodes[i].last == b && s.nodes[i].current == b && b.txns == []
    requires b.index == s.nodes[k].current.index + 1 && s.nodes[k].last.index < b.index
    ensures Legal(net, s, steps)
    ensures var s' := Execute(net, s, steps);
            Inv(net, s') && OnTop(s, s', k, b) && s'.created == s.created && NewBelow(s.soup, s'.soup, b.index + 1)
  {
    hide Inv, Legal, Execute, BlockKey, Do, Enabled, OnTop;
    SameNodes(net, s);
    AskLast(net, s, k, i);
    var ask := [RequestLast(k, i), ServeLast(i, k)];
    var s1 := Execute(net, s, ask);
    RunInv(net, s, ask);
    var learn := TakeInLast(net, s1, k, b);
    var s2 := Execute(net, s1, learn);
    RunInv(net, s1, learn);
    var fetch := AskNext(net, s2, k, i, b);
    var s3 := Execute(net, s2, fetch);
    EmptyDelivery(net, s3, k, b);
    var handle := HandleBlock(k, b, map[]);
    ExecuteOne(net, s3, handle);
    ExecuteAppend(net, s2, fetch, [handle]);
    ExecuteAppend(net, s1, learn, fetch + [handle]);
    ExecuteAppend(net, s, ask, learn + (fetch + [handle]));
    steps := ask + (learn + (fetch + [handle]));
    Fetched(s, s2, s3, Do(net, s3, handle), k, i, b);
  }

  /** The request for the next block and its answer. */
  lemma AskNext(net: Net, s: System, k: Word, i: Word, b: Block) returns (steps: seq<Step>)
    requires Inv(net, s) && Peers(s, k, i) && s.nodes[i].current == b
    requires b.index == s.nodes[k].current.index + 1 && s.nodes[k].current.index < s.nodes[k].last.index
    ensures Legal(net, s, steps) && Inv(net, Execute(net, s, steps))
    ensures Execute(net, s, steps)
            == s.(soup := s.soup + {BlockRequest(k, i, BlockKey(b.index))} + {BlockResponse(k, b)})
  {
    hide Inv, Legal, Execute, BlockKey;
    SameNodes(net, s);
    Stored(net, s, i, b.index);
    CurrentIsStored(net, s, i);
    var ask, serve := RequestNext(k, i), ServeBlock(i, k, BlockKey(b.index));
    ExecuteOne(net, s, ask);
    ExecuteOne(net, Do(net, s, ask), serve);
    ExecuteAppend(net, s, [ask], [serve]);
    steps := [ask] + [serve];
    RunInv(net, s, steps);
  }

  lemma CurrentIsStored(net: Net, s: System, i: Word)
    requires Inv(net, s) && i in s.nodes
    ensures Holds(s.nodes[i], s.nodes[i].current)
  {
    hide NodeInv, WellFormed, HeldByCreator, MessageOk, BlockKey;
    ChainOf(net, Genuine(s), s.nodes[i]);
  }

  lemma Fetched(s: System, s2: System, s3: System, s4: System, k: Word, i: Word, b: Block)
    requires Peers(s, k, i) && s.nodes[k].last.index < b.index == s.nodes[k].current.index + 1
    requires s2 == Put(s, k, s.nodes[k].(last := b)).(soup := s.soup + {LastRequest(k, i)} + {LastResponse(k, b)})
    requires s3 == s2.(soup := s2.soup + {BlockRequest(k, i, BlockKey(b.index))} + {BlockResponse(k, b)})
    requires OnTop(s3, s4, k, b) && s4.soup == s3.soup && s4.created == s3.created
    ensures OnTop(s, s4, k, b) && s4.created == s.created && NewBelow(s.soup, s4.soup, b.index + 1)
  {
    hide BlockKey;
  }

  // ---------- Forks at heights 1 and 2 ----------

  ghost predicate UniqueAt(s: System, h: Word) {
    forall a, b :: a in s.created && b in s.created && a.index == b.index == h ==> a == b
  }

  ghost predicate AlwaysUnique(net: Net, h: Word) {
    forall t1: Word, t2: Word, t3: Word, steps | Legal(net, Initial(net, t1, t2, t3), steps) ::
      UniqueAt(Execute(net, Initial(net, t1, t2, t3), steps), h)
  }

  /** Nodes 1 and 2 both fill height 1 before they hear of each other. */
  lemma ForkAtHeightOne(net: Net) returns (steps: seq<Step>)
    requires CanSign(net)
    ensures Legal(net, Initial(net, 0, 0, 0), steps) && !UniqueAt(Execute(net, Initial(net, 0, 0, 0), steps), 1)
  {
    hide Inv, Legal, Execute, Acceptable, Initial, Eligible, Do, Enabled;
    var s0 := Initial(net, 0, 0, 0);
    Fresh(net);
    assert CanSignAt(net, 1);
    var signature :| Acceptable(net.env, 1, signature);
    TurnSchedule(1);
    var a := EmptyTurn(net, s0, 1, 2, signature, 0);
    var first := TakeTurn(1, 2, [], Some(signature), 0);
    var s1 := Do(net, s0, first);
    var b := EmptyTurn(net, s1, 2, 1, signature, 1);
    var second := TakeTurn(2, 1, [], Some(signature), 1);
    steps := [first] + [second];
    ExecuteOne(net, s0, first);
    ExecuteOne(net, s1, second);
    ExecuteAppend(net, s0, [first], [second]);
    var s2 := Do(net, s1, second);
    assert a in s2.created && b in s2.created && a != b && a.index == b.index == 1;
  }

  /** All three nodes stand at `h`, with empty mempools and no LAST handler under way. */
  ghost predicate Level(s: System, h: nat) {
    && s.nodes.Keys == {1, 2, 3} && s.readers == map[1 := multiset{}, 2 := multiset{}, 3 := multiset{}]
    && forall i :: i in s.nodes ==> At(s.nodes[i], h, h)
  }

  predicate At(n: Node, current: nat, last: nat) {
    n.current.index == current && n.last.index == last && n.pool == map[]
  }

  /** The state before any step. */
  lemma Fresh(net: Net)
    ensures var s := Initial(net, 0, 0, 0); Inv(net, s) && Level(s, 0) && s.soup == {} && s.created == {}
    ensures var s := Initial(net, 0, 0, 0); forall i :: i in s.nodes ==> s.nodes[i].ledger == EmptyLedger(A0(net))
  {
    hide Inv, EnsureTestAccounts, BlockKey, Sound, Settle, WellKeyed, Supply;
    FirstBoot(0, net.addressOf);
    InitialInv(net, 0, 0, 0);
  }

  /** With block 1 everywhere, nodes 2 and 3 both fill height 2. */
  lemma ForkAtHeightTwo(net: Net) returns (steps: seq<Step>)
    requires CanSign(net)
    ensures Legal(net, Initial(net, 0, 0, 0), steps) && !UniqueAt(Execute(net, Initial(net, 0, 0, 0), steps), 2)
  {
    hide Inv, Legal, Execute, Acceptable, Initial, Eligible, Do, Enabled;
    var s0 := Initial(net, 0, 0, 0);
    var _, shared := FirstBlockEverywhere(net);
    var s3 := Execute(net, s0, shared);
    assert CanSignAt(net, 2);
    var signature :| Acceptable(net.env, 2, signature);
    TurnSchedule(2);
    var a := EmptyTurn(net, s3, 2, 3, signature, 0);
    var first := TakeTurn(2, 3, [], Some(signature), 0);
    var s4 := Do(net, s3, first);
    var b := EmptyTurn(net, s4, 3, 1, signature, 1);
    var second := TakeTurn(3, 1, [], Some(signature), 1);
    ExecuteOne(net, s3, first);
    ExecuteOne(net, s4, second);
    ExecuteAppend(net, s3, [first], [second]);
    ExecuteAppend(net, s0, shared, [first] + [second]);
    steps := shared + ([first] + [second]);
    var s5 := Do(net, s4, second);
    assert a in s5.created && b in s5.created && a != b && a.index == b.index == 2;
  }

  /** Everybody has moved from `h` to the new block `b`; nothing else happened. */
  ghost predicate SpreadOut(s: System, s': System, h: nat, b: Block) {
    && Level(s', h + 1) && NewBelow(s.soup, s'.soup, h + 2) && s'.created == s.created + {b}
    && forall m :: m in s.nodes ==> m in s'.nodes && s'.nodes[m].ledger == s.nodes[m].ledger
  }

  /** Node `i` creates the next block and sends it to `j`; `k` fetches it. */
  lemma Spread(net: Net, s: System, h: nat, i: Word, j: Word, k: Word, signature: string)
    returns (b: Block, steps: seq<Step>)
    requires Inv(net, s) && Level(s, h) && {i, j, k} == {1, 2, 3} && i != j && j != k && i != k
    requires CanPropose(s.nodes[i], i) && h + 2 < TWO_64 && Acceptable(net.env, h + 1, signature)
    ensures Legal(net, s, steps) && b.index == h + 1
    ensures Inv(net, Execute(net, s, steps)) && SpreadOut(s, Execute(net, s, steps), h, b)
  {
    hide Inv, Legal, Execute, Acceptable, CanPropose, Do, Enabled, BlockKey;
    b := EmptyTurn(net, s, i, j, signature, 0);
    var turn, toJ := TakeTurn(i, j, [], Some(signature), 0), HandleBlock(j, b, map[]);
    var s1 := Do(net, s, turn);
    EmptyDelivery(net, s1, j, b);
    var s2 := Do(net, s1, toJ);
    var fetch := EmptyFetch(net, s2, k, i, b);
    ExecuteOne(net, s, turn);
    ExecuteOne(net, s1, toJ);
    ExecuteAppend(net, s1, [toJ], fetch);
    ExecuteAppend(net, s, [turn], [toJ] + fetch);
    steps := [turn] + ([toJ] + fetch);
    SpreadLevel(s, s1, s2, Execute(net, s2, fetch), h, i, j, k, b);
  }

  lemma SpreadLevel(s: System, s1: System, s2: System, s3: System, h: nat, i: Word, j: Word, k: Word, b: Block)
    requires Level(s, h) && {i, j, k} == {1, 2, 3} && i != j && j != k && i != k
    requires OnTop(s, s1, i, b) && OnTop(s1, s2, j, b) && OnTop(s2, s3, k, b)
    ensures Level(s3, h + 1)
    ensures forall m :: m in s.nodes ==> m in s3.nodes && s3.nodes[m].ledger == s.nodes[m].ledger
  {
    hide GotTop, At, OnTop;
    AllOnTop(s, s1, s2, s3, i, j, k, b);
    forall m | m in s.nodes
      ensures At(s3.nodes[m], h + 1, h + 1) && s3.nodes[m].ledger == s.nodes[m].ledger
    {
      assert m in {i, j, k};
      TopAt(s.nodes[m], s3.nodes[m], b, h);
    }
  }

  lemma AllOnTop(s: System, s1: System, s2: System, s3: System, i: Word, j: Word, k: Word, b: Block)
    requires i != j && j != k && i != k
    requires OnTop(s, s1, i, b) && OnTop(s1, s2, j, b) && OnTop(s2, s3, k, b)
    ensures s3.nodes.Keys == s.nodes.Keys && s3.readers == s.readers
    ensures forall m :: m in {i, j, k} ==> m in s.nodes && m in s3.nodes && GotTop(s.nodes[m], s3.nodes[m], b)
  {
    hide GotTop, Appended;
  }

  lemma TopAt(n: Node, n': Node, b: Block, h: nat)
    requires At(n, h, h) && GotTop(n, n', b)
    ensures At(n', h + 1, h + 1) && n'.ledger == n.ledger
  {
    hide BlockKey;
  }

  lemma FirstBlockEverywhere(net: Net) returns (b: Block, steps: seq<Step>)
    requires CanSign(net)
    ensures Legal(net, Initial(net, 0, 0, 0), steps) && b.index == 1
    ensures var s := Execute(net, Initial(net, 0, 0, 0), steps);
            && Inv(net, s) && Level(s, 1) && NewBelow({}, s.soup, 2) && s.created == {b}
            && forall i :: i in s.nodes ==> s.nodes[i].ledger == EmptyLedger(A0(net))
  {
    hide Inv, Legal, Execute, Acceptable, Initial, BelowHeight;
    Fresh(net);
    assert CanSignAt(net, 1);
    var signature :| Acceptable(net.env, 1, signature);
    b, steps := Spread(net, Initial(net, 0, 0, 0), 0, 1, 2, 3, signature);
  }

  /** A height carries at most one created block in all runs exactly when it is 3 or more. */
  lemma UniqueExactlyFromThree(net: Net, h: Word)
    requires h >= 1 && CanSign(net)
    ensures AlwaysUnique(net, h) <==> h >= 3
  {
    hide Legal, Execute, Initial, CanSign;
    if h >= 3 {
      forall t1: Word, t2: Word, t3: Word, steps | Legal(net, Initial(net, t1, t2, t3), steps)
        ensures UniqueAt(Execute(net, Initial(net, t1, t2, t3), steps), h)
      {
        AgreementInEveryRun(net, t1, t2, t3, steps);
      }
    } else if h == 1 {
      var steps := ForkAtHeightOne(net);
    } else {
      var steps := ForkAtHeightTwo(net);
    }
  }

  // ---------- A stale LAST write can stop the chain ----------

  /** Height 2 is filled and shared by nodes 1 and 2, and sent to node 3, which is still at height 1. */
  ghost predicate BeforeRace(s: System, b: Block) {
    && s.nodes.Keys == {1, 2, 3} && s.readers == map[1 := multiset{}, 2 := multiset{}, 3 := multiset{}]
    && At(s.nodes[1], 2, 2) && At(s.nodes[2], 2, 2) && At(s.nodes[3], 1, 1)
    && b.index == 2 && b.txns == [] && s.nodes[2].last == b
    && BlockProposal(3, b) in s.soup && NewBelow({}, s.soup, 3)
  }

  lemma ReachBeforeRace(net: Net) returns (b: Block, steps: seq<Step>)
    requires CanSign(net)
    ensures Legal(net, Initial(net, 0, 0, 0), steps)
    ensures Inv(net, Execute(net, Initial(net, 0, 0, 0), steps)) &&
            BeforeRace(Execute(net, Initial(net, 0, 0, 0), steps), b)
  {
    hide Inv, Legal, Execute, Acceptable, Initial, Eligible, Do, Enabled, BlockKey;
    var _, shared := FirstBlockEverywhere(net);
    var s0 := Execute(net, Initial(net, 0, 0, 0), shared);
    assert CanSignAt(net, 2);
    var signature :| Acceptable(net.env, 2, signature);
    TurnSchedule(2);
    b := EmptyTurn(net, s0, 2, 3, signature, 0);
    var turn := TakeTurn(2, 3, [], Some(signature), 0);
    var s1 := Do(net, s0, turn);
    var fetch := EmptyFetch(net, s1, 1, 2, b);
    ExecuteOne(net, s0, turn);
    ExecuteAppend(net, s0, [turn], fetch);
    ExecuteAppend(net, Initial(net, 0, 0, 0), shared, [turn] + fetch);
    steps := shared + ([turn] + fetch);
  }

  /** Node 3 has read its LAST of height 1 while an answer naming height 2 waits to be written. */
  ghost predicate MidRace(s: System, b: Block) {
    && s.nodes.Keys == {1, 2, 3}
    && s.readers == map[1 := multiset{}, 2 := multiset{}, 3 := multiset{LastReader(b, 1)}]
    && At(s.nodes[1], 2, 2) && At(s.nodes[2], 2, 2) && At(s.nodes[3], 1, 1)
    && b.index == 2 && b.txns == []
    && BlockProposal(3, b) in s.soup && NewBelow({}, s.soup, 3)
  }

  lemma ReachMidRace(net: Net, s: System, b: Block) returns (steps: seq<Step>)
    requires Inv(net, s) && BeforeRace(s, b)
    ensures Legal(net, s, steps) && Inv(net, Execute(net, s, steps)) && MidRace(Execute(net, s, steps), b)
  {
    hide Inv, Legal, Execute, BlockKey;
    AskLast(net, s, 3, 2);
    var ask := [RequestLast(3, 2), ServeLast(2, 3)];
    var s1 := Execute(net, s, ask);
    var read := ReadLast(3, b);
    ExecuteOne(net, s1, read);
    ExecuteAppend(net, s, ask, [read]);
    steps := ask + [read];
    RunInv(net, s, steps);
    var s' := Execute(net, s, steps);
    assert s.nodes[3].last.index == 1;
    assert s'.readers[3] == multiset{} + multiset{LastReader(b, 1)} == multiset{LastReader(b, 1)};
    assert s'.readers == s.readers[3 := multiset{LastReader(b, 1)}];
    assert s'.readers == map[1 := multiset{}, 2 := multiset{}, 3 := multiset{LastReader(b, 1)}];
  }

  /** Node 3 has meanwhile moved on to height 3, and its handler is still to write. */
  ghost predicate LateRace(s: System, b: Block, c: Block) {
    && s.nodes.Keys == {1, 2, 3}
    && s.readers == map[1 := multiset{}, 2 := multiset{}, 3 := multiset{LastReader(b, 1)}]
    && At(s.nodes[1], 2, 2) && At(s.nodes[2], 2, 2) && At(s.nodes[3], 3, 3)
    && b.index == 2 && BlockProposal(1, c) in s.soup && NewBelow({BlockProposal(1, c)}, s.soup, 3)
  }

  lemma ReachLateRace(net: Net, s: System, b: Block) returns (c: Block, steps: seq<Step>)
    requires Inv(net, s) && MidRace(s, b) && CanSign(net)
    ensures Legal(net, s, steps) && Inv(net, Execute(net, s, steps)) && LateRace(Execute(net, s, steps), b, c)
  {
    hide Inv, Legal, Execute, Acceptable, Eligible, Do, Enabled, BelowHeight;
    EmptyDelivery(net, s, 3, b);
    var to3 := HandleBlock(3, b, map[]);
    var s1 := Do(net, s, to3);
    assert CanSignAt(net, 3);
    var signature :| Acceptable(net.env, 3, signature);
    TurnSchedule(3);
    c := EmptyTurn(net, s1, 3, 1, signature, 0);
    var turn := TakeTurn(3, 1, [], Some(signature), 0);
    ExecuteOne(net, s, to3);
    ExecuteOne(net, s1, turn);
    ExecuteAppend(net, s, [to3], [turn]);
    steps := [to3] + [turn];
  }

  lemma ReachHalted(net: Net, s: System, b: Block, c: Block) returns (steps: seq<Step>)
    requires Inv(net, s) && LateRace(s, b, c)
    ensures Legal(net, s, steps) && Inv(net, Execute(net, s, steps)) && HaltedAt(Execute(net, s, steps), 3, 2)
    ensures forall i :: i in Execute(net, s, steps).nodes ==> Execute(net, s, steps).nodes[i].current.index >= 2
  {
    hide Inv, Legal, Execute, BelowHeight;
    var write, lose := WriteLast(3, LastReader(b, 1)), LoseMessage(3, BlockProposal(1, c));
    ExecuteOne(net, s, write);
    ExecuteOne(net, Do(net, s, write), lose);
    ExecuteAppend(net, s, [write], [lose]);
    steps := [write] + [lose];
    RunInv(net, s, steps);
    LateWriteHalts(Execute(net, s, steps));
  }

  /** The two other nodes stand at height 2, and everything they could hear of is below height 3. */
  lemma LateWriteHalts(s: System)
    requires s.nodes.Keys == {1, 2, 3} == s.readers.Keys && forall i :: i in s.readers ==> s.readers[i] == multiset{}
    requires At(s.nodes[1], 2, 2) && At(s.nodes[2], 2, 2) && At(s.nodes[3], 3, 2)
    requires NewBelow({}, s.soup, 3)
    ensures HaltedAt(s, 3, 2)
  {
    hide BelowHeight, BlockKey;
    forall i, m | i in s.nodes && m in s.soup
      ensures Harmless(s.nodes, i, m, 3, 2)
    {
      BelowIsHarmless(s.nodes, i, m);
    }
    forall i, b | LastResponse(i, b) in s.soup
      ensures b.index <= 2
    {
      BelowAnswers(i, b);
    }
    assert s.nodes[3].current.index == 3;
  }

  lemma BelowIsHarmless(nodes: map<Word, Node>, i: Word, m: Message)
    requires BelowHeight(m, 3) && i in nodes && nodes[i].current.index >= 2
    ensures Harmless(nodes, i, m, 3, 2)
  {
    hide BlockKey, KeyHeight;
    if Max(nodes[i].current.index, 2) == 2 {
      assert KeyHeight(BlockKey(3)) == 3;
    }
  }

  lemma BelowAnswers(i: Word, b: Block)
    requires BelowHeight(LastResponse(i, b), 3)
    ensures b.index <= 2
  {
  }

  /** With the handler's read and write interleaved with a proposal, and one proposal message lost, the nodes
      reach a state that no continuation leaves: nobody ever creates a block again. */
  lemma StaleLastHaltsTheChain(net: Net) returns (steps: seq<Step>)
    requires CanSign(net)
    ensures Legal(net, Initial(net, 0, 0, 0), steps)
    ensures var s := Execute(net, Initial(net, 0, 0, 0), steps);
            && Frontier(s) == 3 && Halted(s)
            && forall more | Legal(net, s, more) ::
                 Frontier(Execute(net, s, more)) == 3 && Execute(net, s, more).created == s.created
  {
    hide *;
    var s0 := Initial(net, 0, 0, 0);
    var b, run0 := ReachBeforeRace(net);
    var s1 := Execute(net, s0, run0);
    var run1 := ReachMidRace(net, s1, b);
    var s2 := Execute(net, s1, run1);
    var c, run2 := ReachLateRace(net, s2, b);
    var s3 := Execute(net, s2, run2);
    var run3 := ReachHalted(net, s3, b, c);
    ExecuteAppend(net, s2, run2, run3);
    ExecuteAppend(net, s1, run1, run2 + run3);
    ExecuteAppend(net, s0, run0, run1 + (run2 + run3));
    steps := run0 + (run1 + (run2 + run3));
    var s := Execute(net, s0, steps);
    HaltedAtIsHalted(net, s, 3, 2);
    forall more | Legal(net, s, more)
      ensures Execute(net, s, more).created == s.created
    {
      NothingCreated(net, s, more, 3, 2);
    }
  }
}
