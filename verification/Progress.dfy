// What single nodes can do next: the order of CURRENT and LAST, following a peer, and finishing a proposal.

module Progress {
  import opened Options
  import opened Words
  import opened Encoding
  import opened Transactions
  import opened Ledgers
  import opened Processing
  import opened Chain
  import opened Protocol
  import opened Agreement
  import opened Replication
  import opened CatchUp

  lemma SameNodes(net: Net, s: System)
    requires Inv(net, s)
    ensures s.nodes.Keys == {1, 2, 3} && s.readers.Keys == {1, 2, 3}
  {
    hide NodeInv, WellFormed, HeldByCreator, MessageOk;
  }

  // ---------- CURRENT and LAST ----------

  /** No node is ahead of its own LAST. */
  ghost predicate CurrentBelowLast(s: System) {
    forall i :: i in s.nodes ==> s.nodes[i].current.index <= s.nodes[i].last.index
  }

  /** A LAST handler is about to write a block that is later than what it read, but older than what the node has
      stored by now. */
  predicate Overtaken(s: System, step: Step) {
    step.WriteLast? && step.i in s.nodes && step.reader.seen < step.reader.block.index < s.nodes[step.i].current.index
  }

  lemma ActingNodeKeepsOrder(net: Net, s: System, step: Step)
    requires Inv(net, s) && Enabled(net, s, step) && (step.TakeTurn? || step.HandleBlock?)
    requires s.nodes[step.i].current.index <= s.nodes[step.i].last.index
    ensures step.i in Do(net, s, step).nodes
    ensures var n, n' := s.nodes[step.i], Do(net, s, step).nodes[step.i];
            n'.current.index <= n'.last.index && n.last.index <= n'.last.index
  {
    hide NodeInv, WellFormed, HeldByCreator, MessageOk, Propose, HandleNewBlock, HexEncode, BlockKey, ProposerLoop;
    hide FollowerLoop;
    hide Acceptable, IsSnapshot, RemoteOk, NextBlock, Eligible;
    var n := s.nodes[step.i];
    BelowLimit(net, Genuine(s), n);
    if step.TakeTurn? {
      ProposeShape(n, step.i, step.order, step.signature, step.time);
    } else {
      HandleShape(net.env, n, step.block, step.remote);
    }
  }

  /** From an ordered state exactly the overtaken writes lead to one that is not. */
  lemma StepKeepsOrderIff(net: Net, s: System, step: Step)
    requires Inv(net, s) && Enabled(net, s, step) && CurrentBelowLast(s)
    ensures CurrentBelowLast(Do(net, s, step)) <==> !Overtaken(s, step)
    ensures !step.WriteLast? ==> LastGrows(s, Do(net, s, step))
  {
    hide Inv, Do, Enabled;
    StepActs(net, s, step);
    OthersStay(net, s, step);
    if step.TakeTurn? || step.HandleBlock? {
      ActingNodeKeepsOrder(net, s, step);
    }
  }

  /** LAST does not go back. */
  ghost predicate LastGrows(s: System, s': System) {
    forall i :: i in s.nodes && i in s'.nodes ==> s.nodes[i].last.index <= s'.nodes[i].last.index
  }

  ghost predicate OrderedThroughout(net: Net, s: System, steps: seq<Step>)
    requires Legal(net, s, steps)
    decreases |steps|
  {
    CurrentBelowLast(s) && (steps == [] || OrderedThroughout(net, Do(net, s, steps[0]), steps[1..]))
  }

  ghost predicate NoOvertakenWrite(net: Net, s: System, steps: seq<Step>)
    requires Legal(net, s, steps)
    decreases |steps|
  {
    steps == [] || (!Overtaken(s, steps[0]) && NoOvertakenWrite(net, Do(net, s, steps[0]), steps[1..]))
  }

  lemma {:induction false} RunKeepsOrderIff(net: Net, s: System, steps: seq<Step>)
    requires Inv(net, s) && Legal(net, s, steps) && CurrentBelowLast(s)
    ensures OrderedThroughout(net, s, steps) <==> NoOvertakenWrite(net, s, steps)
    decreases |steps|
  {
    hide Inv, Enabled, Do, CurrentBelowLast, Overtaken;
    if steps != [] {
      StepInv(net, s, steps[0]);
      StepKeepsOrderIff(net, s, steps[0]);
      var s1 := Do(net, s, steps[0]);
      if CurrentBelowLast(s1) {
        RunKeepsOrderIff(net, s1, steps[1..]);
      } else {
        assert !OrderedThroughout(net, s1, steps[1..]);
      }
    }
  }

  /** For every run, with reads and writes of LAST apart as they are: no node is ever ahead of its LAST exactly when
      no handler writes a block that is older than one the node has stored since the handler read. */
  lemma OrderInEveryRunIff(net: Net, t1: Word, t2: Word, t3: Word, steps: seq<Step>)
    requires Legal(net, Initial(net, t1, t2, t3), steps)
    ensures OrderedThroughout(net, Initial(net, t1, t2, t3), steps) <==>
            NoOvertakenWrite(net, Initial(net, t1, t2, t3), steps)
  {
    hide Legal, Inv, OrderedThroughout, NoOvertakenWrite, CurrentBelowLast;
    InitialInv(net, t1, t2, t3);
    InitialOrdered(net, t1, t2, t3);
    RunKeepsOrderIff(net, Initial(net, t1, t2, t3), steps);
  }

  lemma InitialOrdered(net: Net, t1: Word, t2: Word, t3: Word)
    ensures var s := Initial(net, t1, t2, t3); CurrentBelowLast(s) && NoHandlers(s)
  {
    hide EnsureTestAccounts;
  }

  // ---------- Undisturbed LAST handlers ----------

  predicate NoHandlers(s: System) {
    forall i :: i in s.readers ==> s.readers[i] == multiset{}
  }

  /** Every LAST handler writes right after it has read. */
  predicate AtomicRun(steps: seq<Step>)
    decreases |steps|
  {
    steps == [] ||
    if steps[0].ReadLast? then |steps| >= 2 && steps[1].WriteLast? && steps[1].i == steps[0].i && AtomicRun(steps[2..])
    else !steps[0].WriteLast? && AtomicRun(steps[1..])
  }

  /** A read and the write that follows it store the later of the two blocks. */
  lemma UndisturbedHandler(net: Net, s: System, i: Word, b: Block, write: Step)
    requires Enabled(net, s, ReadLast(i, b)) && NoHandlers(s)
    requires write.WriteLast? && write.i == i && Enabled(net, Do(net, s, ReadLast(i, b)), write)
    ensures var n := s.nodes[i];
            Do(net, Do(net, s, ReadLast(i, b)), write) == Put(s, i, n.(last := Later(n.last, b, n.last.index)))
  {
    var r := LastReader(b, s.nodes[i].last.index);
    assert s.readers[i] + multiset{r} == multiset{r};
    assert write.reader == r;
    assert s.readers[i] + multiset{r} - multiset{r} == s.readers[i];
    assert s.readers[i := s.readers[i] + multiset{r}][i := s.readers[i]] == s.readers;
  }

  lemma {:induction false} RunOrdered(net: Net, s: System, steps: seq<Step>)
    requires Inv(net, s) && Legal(net, s, steps) && CurrentBelowLast(s) && NoHandlers(s) && AtomicRun(steps)
    ensures var s' := Execute(net, s, steps);
            CurrentBelowLast(s') && NoHandlers(s') && Inv(net, s') && LastGrows(s, s') && s'.nodes.Keys == s.nodes.Keys
    decreases |steps|
  {
    hide Inv, Enabled, Do, CurrentBelowLast, Overtaken, LastGrows, NoHandlers;
    if steps == [] {
      assert LastGrows(s, s) by { LastStays(s); }
    } else if steps[0].ReadLast? {
      StepInv(net, s, steps[0]);
      var s1 := Do(net, s, steps[0]);
      StepInv(net, s1, steps[1]);
      var s2 := Do(net, s1, steps[1]);
      assert steps[1..][0] == steps[1] && steps[1..][1..] == steps[2..];
      HandlerKeepsOrder(net, s, steps[0], steps[1]);
      RunOrdered(net, s2, steps[2..]);
      LastGrowsOn(s, s2, Execute(net, s2, steps[2..]));
    } else {
      StepInv(net, s, steps[0]);
      var s1 := Do(net, s, steps[0]);
      OtherStepKeepsOrder(net, s, steps[0]);
      RunOrdered(net, s1, steps[1..]);
      LastGrowsOn(s, s1, Execute(net, s1, steps[1..]));
    }
  }

  lemma LastStays(s: System)
    ensures LastGrows(s, s)
  {
  }

  lemma LastGrowsOn(s: System, s1: System, s2: System)
    requires LastGrows(s, s1) && LastGrows(s1, s2) && s.nodes.Keys == s1.nodes.Keys
    ensures LastGrows(s, s2)
  {
  }

  lemma HandlerKeepsOrder(net: Net, s: System, read: Step, write: Step)
    requires Inv(net, s) && read.ReadLast? && Enabled(net, s, read) && CurrentBelowLast(s) && NoHandlers(s)
    requires write.WriteLast? && write.i == read.i && Enabled(net, Do(net, s, read), write)
    ensures var s' := Do(net, Do(net, s, read), write);
            CurrentBelowLast(s') && NoHandlers(s') && LastGrows(s, s') && s'.nodes.Keys == s.nodes.Keys
  {
    hide Inv, Do, Enabled;
    UndisturbedHandler(net, s, read.i, read.block, write);
    StepActs(net, s, read);
  }

  lemma OtherStepKeepsOrder(net: Net, s: System, step: Step)
    requires Inv(net, s) && Enabled(net, s, step) && CurrentBelowLast(s) && NoHandlers(s) && !step.ReadLast? &&
             !step.WriteLast?
    ensures var s' := Do(net, s, step);
            CurrentBelowLast(s') && NoHandlers(s') && LastGrows(s, s') && s'.nodes.Keys == s.nodes.Keys
  {
    hide Inv, CurrentBelowLast, LastGrows, Boot, Propose, HandleNewBlock, AddToPool, Issued, BlockKey, Acceptable;
    hide IsSnapshot, RemoteOk;
    StepKeepsOrderIff(net, s, step);
    OthersStay(net, s, step);
  }

  /** CURRENT is at most LAST, and neither went back. */
  ghost predicate Forward(n: Node, n': Node) {
    n.current.index <= n'.current.index <= n'.last.index && n.last.index <= n'.last.index
  }

  lemma ForwardInAtomicRun(net: Net, s: System, steps: seq<Step>, i: Word)
    requires Inv(net, s) && Legal(net, s, steps) && CurrentBelowLast(s) && NoHandlers(s) && AtomicRun(steps) &&
             i in s.nodes
    ensures i in Execute(net, s, steps).nodes && Forward(s.nodes[i], Execute(net, s, steps).nodes[i])
  {
    hide Legal, Execute, Inv, KeepsBlocks, AtomicRun, NoHandlers;
    RunOrdered(net, s, steps);
    RunGrows(net, s, steps, i);
  }

  /** If every LAST handler writes right after it has read, CURRENT never passes LAST, and neither index ever goes
      back. */
  lemma LastOrderedInEveryAtomicRun(net: Net, t1: Word, t2: Word, t3: Word, before: seq<Step>, after: seq<Step>,
                                    i: Word)
    requires Legal(net, Initial(net, t1, t2, t3), before) &&
             Legal(net, Execute(net, Initial(net, t1, t2, t3), before), after)
    requires AtomicRun(before) && AtomicRun(after) && 1 <= i <= 3
    ensures var s := Execute(net, Initial(net, t1, t2, t3), before);
            i in s.nodes && i in Execute(net, s, after).nodes && Forward(s.nodes[i], Execute(net, s, after).nodes[i])
  {
    hide *;
    InitialInv(net, t1, t2, t3);
    InitialOrdered(net, t1, t2, t3);
    RunOrdered(net, Initial(net, t1, t2, t3), before);
    NodeOf(net, Execute(net, Initial(net, t1, t2, t3), before), i);
    ForwardInAtomicRun(net, Execute(net, Initial(net, t1, t2, t3), before), after, i);
  }

  // ---------- Following a peer ----------

  /** One exchange about LAST: node `i` asks, `j` answers, `i` reads its own LAST and then stores the answer if it
      is later. Other handlers stay as they are. */
  lemma LearnLast(net: Net, s: System, i: Word, j: Word) returns (steps: seq<Step>)
    requires Inv(net, s) && Peers(s, i, j)
    ensures Legal(net, s, steps)
    ensures var s' := Execute(net, s, steps); var n := s.nodes[i];
            && Inv(net, s') && OnlyNode(s, s', i)
            && s'.nodes[i] == n.(last := Later(n.last, s.nodes[j].last, n.last.index))
  {
    hide NodeInv, WellFormed, HeldByCreator, MessageOk, BlockKey, Legal, Execute, Do, Enabled, IsGenesis;
    var ask, answer := RequestLast(i, j), ServeLast(j, i);
    var last := s.nodes[j].last;
    var s2 := s.(soup := s.soup + {LastRequest(i, j)} + {LastResponse(i, last)});
    AskLast(net, s, i, j);
    var steps' := TakeInLast(net, s2, i, last);
    ExecuteAppend(net, s, [ask, answer], steps');
    steps := [ask, answer] + steps';
    RunInv(net, s, steps);
  }

  lemma AskLast(net: Net, s: System, i: Word, j: Word)
    requires Inv(net, s) && Peers(s, i, j)
    ensures Legal(net, s, [RequestLast(i, j), ServeLast(j, i)])
    ensures Execute(net, s, [RequestLast(i, j), ServeLast(j, i)]) ==
            s.(soup := s.soup + {LastRequest(i, j)} + {LastResponse(i, s.nodes[j].last)})
  {
    hide NodeInv, WellFormed, HeldByCreator, MessageOk, BlockKey, Legal, Execute, IsGenesis;
    var ask, answer := RequestLast(i, j), ServeLast(j, i);
    ExecuteOne(net, s, ask);
    ExecuteOne(net, Do(net, s, ask), answer);
    ExecuteAppend(net, s, [ask], [answer]);
    assert [ask] + [answer] == [ask, answer];
  }

  /** A LAST answer in the network is read and written without delay. */
  lemma TakeInLast(net: Net, s: System, i: Word, b: Block) returns (steps: seq<Step>)
    requires i in s.nodes && i in s.readers && LastResponse(i, b) in s.soup
    ensures Legal(net, s, steps)
    ensures var n := s.nodes[i]; Execute(net, s, steps) == Put(s, i, n.(last := Later(n.last, b, n.last.index)))
  {
    hide Legal, Execute;
    var r := LastReader(b, s.nodes[i].last.index);
    var read, write := ReadLast(i, b), WriteLast(i, r);
    var s1 := Do(net, s, read);
    assert s1.readers[i] == s.readers[i] + multiset{r};
    ExecuteOne(net, s, read);
    ExecuteOne(net, s1, write);
    ExecuteAppend(net, s, [read], [write]);
    steps := [read] + [write];
    assert s.readers[i] + multiset{r} - multiset{r} == s.readers[i];
    assert s.readers[i := s.readers[i] + multiset{r}][i := s.readers[i]] == s.readers;
  }

  lemma FullFollow(net: Net, s: System, i: Word, j: Word)
    requires Inv(net, s) && i in s.nodes && j in s.nodes
    requires s.nodes[i].current.index <= s.nodes[i].last.index <= s.nodes[j].current.index
    ensures CanFollow(net, s, i, j, Tries(s))
  {
    hide Inv, BlockKey, Covers, Tries, WellFormed;
    forall h: nat | s.nodes[i].current.index < h <= s.nodes[i].last.index && BlockKey(h) in s.nodes[j].blocks
      ensures Covers(net, Tries(s), s.nodes[j].blocks[BlockKey(h)])
    {
      Stored(net, s, j, h);
      TriesCover(net, s, s.nodes[j].blocks[BlockKey(h)]);
    }
  }

  /** The node that stands highest. */
  ghost function Top(s: System): (e: Word)
    ensures s.nodes.Keys == {1, 2, 3} ==> e in s.nodes && s.nodes[e].current.index == Frontier(s)
  {
    if s.nodes.Keys != {1, 2, 3} || s.nodes[1].current.index == Frontier(s) then 1
    else if s.nodes[2].current.index == Frontier(s) then 2 else 3
  }

  /** Node `i` stands at the later of the two LAST records, or higher if it did before; nobody else changes. */
  ghost predicate Followed(s: System, s': System, i: Word, j: Word)
    requires i in s.nodes && j in s.nodes && i in s'.nodes
  {
    var n, n', last := s.nodes[i], s'.nodes[i], Max(s.nodes[i].last.index, s.nodes[j].last.index);
    OnlyNode(s, s', i) && n'.last.index == last && n'.current.index == Max(n.current.index, last)
  }

  /** Node `i` asks `j` for its LAST and follows the highest node up to it. */
  lemma Follow(net: Net, s: System, i: Word, j: Word) returns (steps: seq<Step>)
    requires Inv(net, s) && i in s.nodes && j in s.nodes
    ensures Legal(net, s, steps)
    ensures var s' := Execute(net, s, steps); Inv(net, s') && i in s'.nodes && Followed(s, s', i, j)
  {
    hide Inv, Legal, Execute, CanFollow, Tries, CaughtUp, OnlyNode, Followed, InRounds;
    var learn := AskIfPeer(net, s, i, j);
    var s1 := Execute(net, s, learn);
    SameNodes(net, s1);
    FrontierIsHighestCreated(net, s1);
    KeepsNodes(s, s1, i);
    steps := learn;
    if s1.nodes[i].current.index < s1.nodes[i].last.index {
      FullFollow(net, s1, i, Top(s1));
      var rounds := CatchUpTerminates(net, s1, i, Top(s1), Tries(s1));
      ExecuteAppend(net, s, learn, rounds);
      steps := learn + rounds;
      FollowedAfter(net, s, s1, Execute(net, s1, rounds), i, j, Top(s1));
    } else {
      FollowedAtOnce(s, s1, i, j);
    }
  }

  /** A node has nothing to ask itself. */
  lemma AskIfPeer(net: Net, s: System, i: Word, j: Word) returns (steps: seq<Step>)
    requires Inv(net, s) && i in s.nodes && j in s.nodes
    ensures Legal(net, s, steps)
    ensures var s' := Execute(net, s, steps); var n := s.nodes[i];
            && Inv(net, s') && OnlyNode(s, s', i)
            && s'.nodes[i] == n.(last := Later(n.last, s.nodes[j].last, n.last.index))
  {
    hide Inv, Legal, Execute;
    if i == j {
      steps := [];
      NoSteps(net, s);
    } else {
      steps := LearnLast(net, s, i, j);
    }
  }

  lemma KeepsNodes(s: System, s': System, i: Word)
    requires OnlyNode(s, s', i)
    ensures s'.nodes.Keys == s.nodes.Keys
  {
  }

  lemma FollowedAtOnce(s: System, s1: System, i: Word, j: Word)
    requires i in s.nodes && j in s.nodes && OnlyNode(s, s1, i)
    requires var n := s.nodes[i]; s1.nodes[i] == n.(last := Later(n.last, s.nodes[j].last, n.last.index))
    requires s1.nodes[i].last.index <= s1.nodes[i].current.index
    ensures Followed(s, s1, i, j)
  {
  }

  lemma FollowedAfter(net: Net, s: System, s1: System, s2: System, i: Word, j: Word, e: Word)
    requires i in s.nodes && j in s.nodes && OnlyNode(s, s1, i) && e in s1.nodes && s2.nodes.Keys == s1.nodes.Keys
    requires var n := s.nodes[i]; s1.nodes[i] == n.(last := Later(n.last, s.nodes[j].last, n.last.index))
    requires s1.nodes[i].current.index < s1.nodes[i].last.index && CaughtUp(net, s1, s2, i, e)
    ensures Inv(net, s2) && Followed(s, s2, i, j)
  {
    hide Inv, BlockKey, Replicated, KeepsBlocks;
  }

  // ---------- A proposer gets through its mempool ----------

  lemma {:induction false} SnapshotExists(pool: Pool) returns (order: seq<Transaction>)
    requires PoolKeyed(pool)
    ensures IsSnapshot(pool, order)
    decreases pool.Keys
  {
    hide HexEncode;
    if pool.Keys == {} {
      order := [];
    } else {
      var k :| k in pool;
      var rest := SnapshotExists(pool - {k});
      SnapshotAdd(pool - {k}, rest, pool[k]);
      order := rest + [pool[k]];
      assert (pool - {k})[k := pool[k]] == pool;
    }
  }

  /** A call that fails drops the entry it failed on, so the next attempt starts from a smaller mempool. */
  lemma {:induction false} FaultDropsEntry(p: Proposer, order: seq<Transaction>)
    requires p.fault.None? && ProposerLoop(p, order).fault.Some?
    requires forall i :: 0 <= i < |order| ==> HexEncode(order[i].id) in p.pool
    requires forall i, j :: 0 <= i < j < |order| ==> order[i].id != order[j].id
    ensures ProposerLoop(p, order).pool.Keys < p.pool.Keys
    decreases |order|
  {
    hide HexEncode, Apply;
    var p1, rest := ProposerStep(p, order[0]), order[1..];
    if p1.fault.None? {
      forall i | 0 <= i < |rest|
        ensures HexEncode(rest[i].id) in p1.pool
      {
        assert rest[i] == order[i + 1];
        HexEncodeInjective(rest[i].id, order[0].id);
      }
      FaultDropsEntry(p1, rest);
    }
    assert HexEncode(order[0].id) in p.pool;
  }

  /** A node whose turn it is creates a block after finitely many attempts, with any clock value. */
  lemma {:induction false} ProposeUntilDone(net: Net, s: System, i: Word, to: Word, signature: string, time: Word)
    returns (b: Block, steps: seq<Step>)
    requires Inv(net, s) && Peers(s, i, to) && CanPropose(s.nodes[i], i)
    requires s.nodes[i].current.index + 2 < TWO_64 && Acceptable(net.env, s.nodes[i].current.index + 1, signature)
    ensures Legal(net, s, steps) && Execute(net, s, steps).created == s.created + {b}
    ensures b.index == s.nodes[i].current.index + 1 && b.header.time == time
    ensures var s' := Execute(net, s, steps);
            && Inv(net, s') && s'.readers == s.readers && s.soup <= s'.soup && s'.nodes.Keys == s.nodes.Keys
            && (forall j :: j in s.nodes && j != i ==> s'.nodes[j] == s.nodes[j])
            && s'.nodes[i].current == b && s'.nodes[i].last.index == Max(s.nodes[i].last.index, b.index)
    decreases s.nodes[i].pool.Keys
  {
    hide Inv, Legal, Execute, Propose, ProposerLoop, Acceptable, IsSnapshot, CanPropose, BlockKey, Eligible;
    hide PoolKeyed, Enabled;
    var n := s.nodes[i];
    PoolKeyedOf(net, s, i);
    var order := SnapshotExists(n.pool);
    var step := TakeTurn(i, to, order, Some(signature), time);
    EnabledTurn(net, s, i, to, order, signature, time);
    StepInv(net, s, step);
    ExecuteOne(net, s, step);
    ProposeShape(n, i, order, Some(signature), time);
    var (n', p) := Propose(n, i, order, Some(signature), time);
    if p.Proposed? {
      b, steps := p.block, [step];
    } else {
      var s1 := Do(net, s, step);
      FailedProposalShrinks(net, s, i, order, signature, time);
      var rest;
      b, rest := ProposeUntilDone(net, s1, i, to, signature, time);
      ExecuteAppend(net, s, [step], rest);
      steps := [step] + rest;
    }
  }

  lemma PoolKeyedOf(net: Net, s: System, i: Word)
    requires Inv(net, s) && i in s.nodes
    ensures PoolKeyed(s.nodes[i].pool) && s.nodes[i].current.index < TWO_64 - 1 && i in s.readers
  {
    hide NodeInv, WellFormed, HeldByCreator, MessageOk, LedgerInv;
    LedgerAndPool(net, Genuine(s), s.nodes[i]);
    BelowLimit(net, Genuine(s), s.nodes[i]);
  }

  lemma EnabledTurn(net: Net, s: System, i: Word, to: Word, order: seq<Transaction>, signature: string, time: Word)
    requires Peers(s, i, to) && i in s.readers && IsSnapshot(s.nodes[i].pool, order)
    requires s.nodes[i].current.index + 2 < TWO_64 && Acceptable(net.env, s.nodes[i].current.index + 1, signature)
    ensures Enabled(net, s, TakeTurn(i, to, order, Some(signature), time))
  {
    hide IsSnapshot, Acceptable;
  }

  lemma FailedProposalShrinks(net: Net, s: System, i: Word, order: seq<Transaction>, signature: string, time: Word)
    requires i in s.nodes && CanPropose(s.nodes[i], i) && IsSnapshot(s.nodes[i].pool, order) &&
             s.nodes[i].current.index < TWO_64 - 1
    requires Propose(s.nodes[i], i, order, Some(signature), time).1.Declined?
    ensures Propose(s.nodes[i], i, order, Some(signature), time).0.pool.Keys < s.nodes[i].pool.Keys
    ensures SameRecords(s.nodes[i], Propose(s.nodes[i], i, order, Some(signature), time).0)
    ensures CanPropose(Propose(s.nodes[i], i, order, Some(signature), time).0, i)
  {
    hide ProposerLoop, Eligible, BlockKey, HexEncode;
    var n := s.nodes[i];
    ProposeShape(n, i, order, Some(signature), time);
    var p := StartProposer(n.ledger, n.pool);
    if ProposerLoop(p, order).fault == None {
      ProposeSucceeds(n, i, order, Some(signature), time);
      assert false;
    } else {
      FaultDropsEntry(p, order);
    }
  }

  // ---------- Signing ----------

  /** Every node can sign: some signature text passes the check for each height. */
  ghost predicate CanSign(net: Net) {
    forall h: Word :: h >= 1 ==> CanSignAt(net, h)
  }

  ghost predicate CanSignAt(net: Net, h: Word) {
    exists signature :: Acceptable(net.env, h, signature)
  }

  /** Some bytes recover to a key, as a signature of the key text of this height. */
  ghost predicate Recoverable(ecdsa: Ecdsa, h: nat) {
    exists bytes :: ecdsa.recover("block_" + Decimal(h), bytes).Some?
  }

  /** With the three nodes configured under keys of the curve, they can sign exactly if for every height there is a
      signature of its key text that recovers to some key. */
  lemma CanSignIff(net: Net, key1: string, key2: string, key3: string)
    requires net.env.nodes == [NodeConfig(key1, 1), NodeConfig(key2, 2), NodeConfig(key3, 3)]
    requires OnCurve(net.env.ecdsa, key1) && OnCurve(net.env.ecdsa, key2) && OnCurve(net.env.ecdsa, key3)
    ensures CanSign(net) <==>
            forall h: Word :: h >= 1 ==> Recoverable(net.env.ecdsa, h)
  {
    hide HexDecode, HexEncode, Decimal, Acceptable, Checks, OnCurve;
    forall h: Word | h >= 1
      ensures CanSignAt(net, h) <==> Recoverable(net.env.ecdsa, h)
    {
      if CanSignAt(net, h) {
        var signature :| Acceptable(net.env, h, signature);
        AcceptableIff(net.env, h, signature);
        SignatureRecovers(net.env, h, signature);
      }
      if bytes :| net.env.ecdsa.recover("block_" + Decimal(h), bytes).Some? {
        ThreeNodesCheck(net.env, key1, key2, key3, h, bytes);
        AcceptableIff(net.env, h, HexEncode(bytes));
      }
    }
  }

  lemma SignatureRecovers(env: Env, h: nat, signature: string)
    requires Checks(env, h, signature)
    ensures Recoverable(env.ecdsa, h)
  {
    hide HexDecode, Decimal, FirstAt;
  }
}
