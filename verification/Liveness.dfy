// When the chain can still grow: an exact condition on states, with the LAST handlers as they are.

module Liveness {
  import opened Options
  import opened Words
  import opened Encoding
  import opened Transactions
  import opened Ledgers
  import opened Processing
  import opened Chain
  import opened Protocol
  import opened Agreement
  import opened Replication
  import opened CatchUp
  import opened Progress

  // ---------- The condition ----------

  /** The message brings node `i` the block of this height, or is its request for that block to a node that has it. */
  predicate Offers(nodes: map<Word, Node>, m: Message, i: Word, k: nat) {
    match m
    case BlockProposal(to, b) => to == i && b.index == k
    case BlockResponse(to, b) => to == i && b.index == k
    case BlockRequest(from, to, key) => from == i && key == BlockKey(k) && to in nodes && nodes[to].current.index >= k
    case _ => false
  }

  predicate Offered(s: System, i: Word, k: nat) {
    exists m :: m in s.soup && Offers(s.nodes, m, i, k)
  }

  /** The pending write will happen, and its block is above `h`. */
  predicate Effective(r: LastReader, h: nat) {
    r.block.index > r.seen && r.block.index > h
  }

  /** A LAST record, an answer about LAST or a pending write of LAST names a height above `h`. */
  ghost predicate Named(s: System, h: nat) {
    || (exists i :: i in s.nodes && s.nodes[i].last.index > h)
    || (exists i, b :: i in s.nodes && LastResponse(i, b) in s.soup && b.index > h)
    || (exists i, r :: i in s.readers && r in s.readers[i] && Effective(r, h))
  }

  /** Nothing names a height above `h`, and nobody is offered the block that follows `h` or, if it stands higher,
      its own CURRENT. */
  ghost predicate Settled(s: System, h: nat) {
    && !Named(s, h)
    && forall i :: i in s.nodes && Max(s.nodes[i].current.index, h) < Frontier(s) ==>
         !Offered(s, i, Max(s.nodes[i].current.index, h) + 1)
  }

  /** At level 1 node 2 must have passed height 1, for there it is eligible to fill height 2 once more. */
  ghost predicate Stuck(s: System, h: nat) {
    Settled(s, h) && (h == 1 ==> 2 in s.nodes && s.nodes[2].current.index >= 2)
  }

  /** The frontier will never move again. */
  ghost predicate Halted(s: System) {
    && s.nodes.Keys == {1, 2, 3} && s.readers.Keys == {1, 2, 3} && Frontier(s) >= 3
    && s.nodes[Proposer3(Frontier(s) + 1)].current.index < Frontier(s)
    && exists h: nat :: 1 <= h < Frontier(s) && Stuck(s, h)
  }

  // ---------- A halted state stays halted ----------

  /** Halted at frontier `f` with nothing named above `h`, spelled out. */
  ghost predicate HaltedAt(s: System, f: nat, h: nat) {
    && f >= 3 && 1 <= h < f && s.nodes.Keys == {1, 2, 3} && s.readers.Keys == {1, 2, 3}
    && NodesHalted(s.nodes, f, h)
    && (forall i, b :: i in s.nodes && LastResponse(i, b) in s.soup ==> b.index <= h)
    && (forall i, r :: i in s.readers && r in s.readers[i] ==> !Effective(r, h))
    && NothingOffered(s.nodes, s.soup, f, h)
  }

  ghost predicate NodesHalted(nodes: map<Word, Node>, f: nat, h: nat) {
    && (forall i :: i in nodes ==> nodes[i].current.index <= f && nodes[i].last.index <= h)
    && (exists i :: i in nodes && nodes[i].current.index == f)
    && Proposer3(f + 1) in nodes && nodes[Proposer3(f + 1)].current.index < f
    && 2 in nodes && (h == 1 ==> nodes[2].current.index >= 2)
  }

  ghost predicate NothingOffered(nodes: map<Word, Node>, soup: set<Message>, f: nat, h: nat) {
    forall i, m :: i in nodes && m in soup ==> Harmless(nodes, i, m, f, h)
  }

  predicate Harmless(nodes: map<Word, Node>, i: Word, m: Message, f: nat, h: nat)
    requires i in nodes
  {
    Max(nodes[i].current.index, h) < f ==> !Offers(nodes, m, i, Max(nodes[i].current.index, h) + 1)
  }

  lemma HaltedIsHaltedAt(net: Net, s: System) returns (h: nat)
    requires Inv(net, s) && Halted(s)
    ensures HaltedAt(s, Frontier(s), h)
  {
    hide Inv, Offers, Effective, BlockKey, Proposer3, Settled, NodesHalted, NothingOffered, Frontier;
    h :| 1 <= h < Frontier(s) && Stuck(s, h);
    SettledNodes(s, h);
    SettledMessages(s, h);
    SettledNames(s, h);
  }

  lemma SettledNodes(s: System, h: nat)
    requires s.nodes.Keys == {1, 2, 3} && Stuck(s, h)
    requires s.nodes[Proposer3(Frontier(s) + 1)].current.index < Frontier(s)
    ensures NodesHalted(s.nodes, Frontier(s), h)
  {
    hide Offers, Effective, BlockKey, Proposer3, Offered;
    assert s.nodes[Top(s)].current.index == Frontier(s);
  }

  lemma SettledNames(s: System, h: nat)
    requires Settled(s, h)
    ensures forall i, b :: i in s.nodes && LastResponse(i, b) in s.soup ==> b.index <= h
    ensures forall i, r :: i in s.readers && r in s.readers[i] ==> !Effective(r, h)
  {
    hide Effective, Offered, Frontier;
  }

  lemma SettledMessages(s: System, h: nat)
    requires Settled(s, h)
    ensures NothingOffered(s.nodes, s.soup, Frontier(s), h)
  {
    hide Offers, Named, Frontier;
    forall i, m | i in s.nodes && m in s.soup
      ensures Harmless(s.nodes, i, m, Frontier(s), h)
    {
      if Max(s.nodes[i].current.index, h) < Frontier(s) {
        assert !Offered(s, i, Max(s.nodes[i].current.index, h) + 1);
      }
    }
  }

  /** A node that moves up to `h` at most changes nothing about what is offered above `h`. */
  lemma HarmlessStays(nodes: map<Word, Node>, j: Word, n': Node, i: Word, m: Message, f: nat, h: nat)
    requires i in nodes && j in nodes && Harmless(nodes, i, m, f, h)
    requires n'.current.index == nodes[j].current.index || nodes[j].current.index <= n'.current.index <= h
    ensures Harmless(nodes[j := n'], i, m, f, h)
  {
    hide BlockKey;
  }

  lemma NodesPut(nodes: map<Word, Node>, i: Word, n': Node, f: nat, h: nat)
    requires NodesHalted(nodes, f, h) && h < f && i in nodes && n'.last.index <= h
    requires n'.current.index == nodes[i].current.index || nodes[i].current.index <= n'.current.index <= h
    ensures NodesHalted(nodes[i := n'], f, h)
  {
    hide Proposer3;
    var e :| e in nodes && nodes[e].current.index == f;
    assert nodes[i := n'][e].current.index == f;
  }

  lemma OffersPut(nodes: map<Word, Node>, soup: set<Message>, i: Word, n': Node, f: nat, h: nat)
    requires NothingOffered(nodes, soup, f, h) && i in nodes
    requires n'.current.index == nodes[i].current.index || nodes[i].current.index <= n'.current.index <= h
    ensures NothingOffered(nodes[i := n'], soup, f, h)
  {
    hide Harmless;
    forall j, m | j in nodes && m in soup
      ensures Harmless(nodes[i := n'], j, m, f, h)
    {
      HarmlessStays(nodes, i, n', j, m, f, h);
    }
  }

  lemma HaltedPut(s: System, i: Word, n': Node, f: nat, h: nat)
    requires HaltedAt(s, f, h) && i in s.nodes && n'.last.index <= h
    requires n'.current.index == s.nodes[i].current.index || s.nodes[i].current.index <= n'.current.index <= h
    ensures HaltedAt(Put(s, i, n'), f, h)
  {
    hide Effective, NodesHalted, NothingOffered;
    NodesPut(s.nodes, i, n', f, h);
    OffersPut(s.nodes, s.soup, i, n', f, h);
  }

  lemma HaltedMessage(s: System, m: Message, f: nat, h: nat)
    requires HaltedAt(s, f, h) && (m.LastResponse? ==> m.block.index <= h)
    requires forall i :: i in s.nodes ==> Harmless(s.nodes, i, m, f, h)
    ensures HaltedAt(s.(soup := s.soup + {m}), f, h)
  {
    hide Effective, Harmless, NodesHalted;
  }

  lemma HaltedReaders(s: System, i: Word, readers: multiset<LastReader>, f: nat, h: nat)
    requires HaltedAt(s, f, h) && i in s.nodes && forall r :: r in readers ==> !Effective(r, h)
    ensures HaltedAt(s.(readers := s.readers[i := readers]), f, h)
  {
    hide Effective, NodesHalted, NothingOffered;
  }

  lemma HaltedLoss(s: System, m: Message, f: nat, h: nat)
    requires HaltedAt(s, f, h)
    ensures HaltedAt(s.(soup := s.soup - {m}), f, h)
  {
    hide Effective, Harmless, NodesHalted;
  }

  /** The frontier node, and the one whose turn it would be. */
  lemma FrontierNode(s: System, f: nat, h: nat) returns (e: Word)
    requires HaltedAt(s, f, h)
    ensures e in s.nodes && s.nodes[e].current.index == f && f >= 3 && 1 <= h < f
    ensures Proposer3(f + 1) in s.nodes && s.nodes[Proposer3(f + 1)].current.index < f
    ensures 2 in s.nodes && (h == 1 ==> s.nodes[2].current.index >= 2)
  {
    hide Effective, Offers, NothingOffered, Proposer3;
    e :| e in s.nodes && s.nodes[e].current.index == f;
  }

  /** What a halted state says about one node and one message. */
  lemma HaltedMail(s: System, i: Word, m: Message, f: nat, h: nat)
    requires HaltedAt(s, f, h) && i in s.nodes && m in s.soup
    ensures Harmless(s.nodes, i, m, f, h) && (m.LastResponse? && m.to in s.nodes ==> m.block.index <= h)
  {
    hide Effective, Harmless, NodesHalted;
  }

  /** What a halted state says about one node. */
  lemma HaltedNode(s: System, i: Word, f: nat, h: nat)
    requires HaltedAt(s, f, h) && i in s.nodes
    ensures i in s.readers && s.nodes[i].last.index <= h && s.nodes[i].current.index <= f
    ensures forall r :: r in s.readers[i] ==> !Effective(r, h)
  {
    hide Effective, Offers, Harmless;
  }

  lemma SmallIndex(net: Net, s: System, i: Word)
    requires Inv(net, s) && i in s.nodes
    ensures s.nodes[i].current.index < TWO_64 - 1
  {
    hide NodeInv, WellFormed, HeldByCreator, MessageOk;
    BelowLimit(net, Genuine(s), s.nodes[i]);
  }

  /** In a halted state only heights 1 and 2 can still be filled, and only up to `h`. */
  lemma OnlyLowTurns(net: Net, s: System, i: Word, f: nat, h: nat)
    requires Inv(net, s) && HaltedAt(s, f, h) && i in s.nodes && CanPropose(s.nodes[i], i)
    ensures s.nodes[i].current.index + 1 <= h
  {
    hide Inv, HaltedAt, Eligible, BlockKey, Add64, CanPropose, Proposer3;
    SameNodes(net, s);
    SmallIndex(net, s, i);
    HaltedNode(s, i, f, h);
    var e := FrontierNode(s, f, h);
    if s.nodes[i].current.index >= 2 {
      HighTurn(net, s, i, e, f);
    } else {
      LowTurn(net, s, i, e, f);
    }
  }

  lemma HighTurn(net: Net, s: System, i: Word, e: Word, f: nat)
    requires Inv(net, s) && i in s.nodes && 1 <= i <= 3 && e in s.nodes
    requires 2 <= s.nodes[i].current.index <= s.nodes[e].current.index == f
    requires s.nodes[i].current.index < TWO_64 - 1
    requires Proposer3(f + 1) in s.nodes && s.nodes[Proposer3(f + 1)].current.index < f
    ensures !CanPropose(s.nodes[i], i)
  {
    hide Inv, WellFormed, Eligible, BlockKey;
    var c := s.nodes[i].current.index;
    TurnSchedule(c + 1);
    if CanPropose(s.nodes[i], i) && c < f {
      Stored(net, s, e, c + 1);
      var j := Creator(net, s, BlockAt(s.nodes[e], c + 1));
      assert false;
    }
  }

  lemma LowTurn(net: Net, s: System, i: Word, e: Word, f: nat)
    requires Inv(net, s) && i in s.nodes && 1 <= i <= 3 && e in s.nodes
    requires s.nodes[i].current.index <= 1 && s.nodes[e].current.index == f >= 3 && CanPropose(s.nodes[i], i)
    ensures i == 2 || (i == 1 && s.nodes[i].current.index == 0)
  {
    hide Inv, WellFormed, Eligible, BlockKey;
    TurnSchedule(s.nodes[i].current.index + 1);
    Stored(net, s, e, f);
    if i == 3 {
      NothingPastNextTurn(net, s, 3, BlockAt(s.nodes[e], f));
    }
  }

  lemma TurnHalted(net: Net, s: System, step: Step, f: nat, h: nat)
    requires Inv(net, s) && Enabled(net, s, step) && HaltedAt(s, f, h) && step.TakeTurn?
    ensures HaltedAt(Do(net, s, step), f, h)
  {
    hide Inv, HaltedAt, ProposerLoop, BlockKey, IsSnapshot, Acceptable, CanPropose, Propose, NextBlock, Harmless;
    var i, n := step.i, s.nodes[step.i];
    var (n', p) := Propose(n, i, step.order, step.signature, step.time);
    SmallIndex(net, s, i);
    HaltedNode(s, i, f, h);
    ProposeShape(n, i, step.order, step.signature, step.time);
    match p {
      case Declined(_) => HaltedPut(s, i, n', f, h);
      case Proposed(b) =>
        OnlyLowTurns(net, s, i, f, h);
        HaltedPut(s, i, n', f, h);
        LowIsHarmless(n', Put(s, i, n').nodes, BlockProposal(step.to, b), f, h);
        HaltedMessage(Put(s, i, n'), BlockProposal(step.to, b), f, h);
        HaltedCreated(Put(s, i, n').(soup := s.soup + {BlockProposal(step.to, b)}), s.created + {b}, f, h);
    }
  }

  /** A block of height `h` at most is of no use to anybody. */
  lemma LowIsHarmless(n: Node, nodes: map<Word, Node>, m: Message, f: nat, h: nat)
    requires (m.BlockProposal? || m.BlockResponse?) && m.block.index <= h
    ensures forall i :: i in nodes ==> Harmless(nodes, i, m, f, h)
  {
    hide BlockKey;
  }

  lemma HaltedCreated(s: System, created: set<Block>, f: nat, h: nat)
    requires HaltedAt(s, f, h)
    ensures HaltedAt(s.(created := created), f, h)
  {
    hide Effective, Harmless, NodesHalted;
  }

  lemma DeliveryHalted(net: Net, s: System, step: Step, f: nat, h: nat)
    requires Inv(net, s) && Enabled(net, s, step) && HaltedAt(s, f, h) && step.HandleBlock?
    ensures HaltedAt(Do(net, s, step), f, h)
  {
    hide Inv, HaltedAt, HandleNewBlock, BlockKey, RemoteOk, Effective, FollowerLoop;
    var i, n, b := step.i, s.nodes[step.i], step.block;
    var n' := HandleNewBlock(net.env, n, b, step.remote).0;
    SmallIndex(net, s, i);
    HandleShape(net.env, n, b, step.remote);
    if Appended(n, n', b) {
      OfferedBlock(net, s, i, b, f, h);
    }
    HaltedNode(s, i, f, h);
    HaltedPut(s, i, n', f, h);
  }

  /** A block that a node can store in a halted state is at most `h`. */
  lemma OfferedBlock(net: Net, s: System, i: Word, b: Block, f: nat, h: nat)
    requires Inv(net, s) && HaltedAt(s, f, h) && i in s.nodes
    requires Delivered(s.soup, i, b) && b.index == s.nodes[i].current.index + 1
    ensures b.index <= h
  {
    hide Inv, WellFormed, HaltedAt, BlockKey;
    DeliveredIsGenuine(net, s, i, b);
    GenuineIsCreated(net, s, b);
    var j := Creator(net, s, b);
    HaltedNode(s, j, f, h);
    HaltedMail(s, i, if BlockResponse(i, b) in s.soup then BlockResponse(i, b) else BlockProposal(i, b), f, h);
  }

  lemma LastHalted(net: Net, s: System, step: Step, f: nat, h: nat)
    requires Inv(net, s) && Enabled(net, s, step) && HaltedAt(s, f, h) && (step.ReadLast? || step.WriteLast?)
    ensures HaltedAt(Do(net, s, step), f, h)
  {
    hide Inv, Offers, Harmless, HaltedAt;
    var i, n := step.i, s.nodes[step.i];
    HaltedNode(s, i, f, h);
    match step {
      case ReadLast(_, b) =>
        HaltedMail(s, i, LastResponse(i, b), f, h);
        HaltedReaders(s, i, s.readers[i] + multiset{LastReader(b, n.last.index)}, f, h);
      case WriteLast(_, r) =>
        var n' := n.(last := Later(n.last, r.block, r.seen));
        HaltedPut(s, i, n', f, h);
        HaltedReaders(Put(s, i, n'), i, s.readers[i] - multiset{r}, f, h);
    }
  }

  lemma MessageHalted(net: Net, s: System, step: Step, f: nat, h: nat)
    requires Inv(net, s) && Enabled(net, s, step) && HaltedAt(s, f, h)
    requires step.RequestNext? || step.RequestLast? || step.ServeBlock? || step.ServeLast?
    ensures HaltedAt(Do(net, s, step), f, h)
  {
    hide Inv, HaltedAt, BlockKey, Effective;
    var i, n := step.i, s.nodes[step.i];
    HaltedNode(s, i, f, h);
    match step {
      case RequestNext(_, to) =>
        var m := BlockRequest(i, to, BlockKey(n.current.index + 1));
        forall j | j in s.nodes
          ensures Harmless(s.nodes, j, m, f, h)
        {
          BlockKeysNeverCollide(n.current.index + 1, Max(s.nodes[j].current.index, h) + 1);
        }
        HaltedMessage(s, m, f, h);
      case ServeBlock(_, to, key) =>
        ServedIsHarmless(net, s, i, to, key, f, h);
        HaltedMessage(s, BlockResponse(to, n.blocks[key]), f, h);
      case RequestLast(_, to) => HaltedMessage(s, LastRequest(i, to), f, h);
      case ServeLast(_, to) => HaltedMessage(s, LastResponse(to, n.last), f, h);
    }
  }

  /** An answer brings the height that its request asked a holder for. */
  lemma ServedIsHarmless(net: Net, s: System, i: Word, to: Word, key: string, f: nat, h: nat)
    requires Inv(net, s) && HaltedAt(s, f, h) && i in s.nodes && key in s.nodes[i].blocks
    requires BlockRequest(to, i, key) in s.soup
    ensures forall j :: j in s.nodes ==> Harmless(s.nodes, j, BlockResponse(to, s.nodes[i].blocks[key]), f, h)
  {
    hide Inv, BlockKey, HaltedAt;
    StoredOnlyUpToCurrent(net, s, i, key);
    forall j | j in s.nodes
      ensures Harmless(s.nodes, j, BlockResponse(to, s.nodes[i].blocks[key]), f, h)
    {
      HaltedMail(s, j, BlockRequest(to, i, key), f, h);
    }
  }

  lemma QuietHalted(net: Net, s: System, step: Step, f: nat, h: nat)
    requires Inv(net, s) && Enabled(net, s, step) && HaltedAt(s, f, h)
    requires step.AddTransaction? || step.Restart? || step.LoseMessage?
    ensures HaltedAt(Do(net, s, step), f, h)
  {
    hide Inv, HaltedAt, Boot, AddToPool, Issued, Effective;
    var i, n := step.i, s.nodes[step.i];
    HaltedNode(s, i, f, h);
    match step {
      case AddTransaction(_, t) => HaltedPut(s, i, n.(pool := AddToPool(n.pool, t)), f, h);
      case Restart(_, _) =>
        RestartInv(net, s, step);
        HaltedPut(s, i, n.(pool := map[]), f, h);
        HaltedReaders(Put(s, i, n.(pool := map[])), i, multiset{}, f, h);
      case LoseMessage(_, m) => HaltedLoss(s, m, f, h);
    }
  }

  lemma StepHalted(net: Net, s: System, step: Step, f: nat, h: nat)
    requires Inv(net, s) && Enabled(net, s, step) && HaltedAt(s, f, h)
    ensures HaltedAt(Do(net, s, step), f, h)
  {
    hide Inv, Enabled, Do, HaltedAt;
    match step {
      case TakeTurn(_, _, _, _, _) => TurnHalted(net, s, step, f, h);
      case HandleBlock(_, _, _) => DeliveryHalted(net, s, step, f, h);
      case ReadLast(_, _) => LastHalted(net, s, step, f, h);
      case WriteLast(_, _) => LastHalted(net, s, step, f, h);
      case AddTransaction(_, _) => QuietHalted(net, s, step, f, h);
      case Restart(_, _) => QuietHalted(net, s, step, f, h);
      case LoseMessage(_, _) => QuietHalted(net, s, step, f, h);
      case _ => MessageHalted(net, s, step, f, h);
    }
  }

  /** From a halted state no continuation whatsoever moves the frontier. */
  lemma {:induction false} HaltedForever(net: Net, s: System, steps: seq<Step>, f: nat, h: nat)
    requires Inv(net, s) && Legal(net, s, steps) && HaltedAt(s, f, h)
    ensures HaltedAt(Execute(net, s, steps), f, h) && Frontier(Execute(net, s, steps)) == f
    decreases |steps|
  {
    hide Inv, Enabled, Do, HaltedAt, Frontier;
    if steps == [] {
      HaltedFrontier(s, f, h);
    } else {
      StepInv(net, s, steps[0]);
      StepHalted(net, s, steps[0], f, h);
      HaltedForever(net, Do(net, s, steps[0]), steps[1..], f, h);
    }
  }

  lemma HaltedFrontier(s: System, f: nat, h: nat)
    requires HaltedAt(s, f, h)
    ensures Frontier(s) == f
  {
    hide Offers, Effective, NothingOffered, Proposer3;
  }

  /** The spelled-out form says the same, and says it of the frontier that it names. */
  lemma HaltedAtIsHalted(net: Net, s: System, f: nat, h: nat)
    requires Inv(net, s) && HaltedAt(s, f, h)
    ensures Frontier(s) == f && Halted(s)
    ensures forall steps | Legal(net, s, steps) :: Frontier(Execute(net, s, steps)) == f
  {
    hide Inv, Legal, Execute, Proposer3, Frontier, Settled;
    HaltedFrontier(s, f, h);
    var _ := FrontierNode(s, f, h);
    HaltedIsSettled(s, f, h);
    assert Stuck(s, h);
    forall steps | Legal(net, s, steps)
      ensures Frontier(Execute(net, s, steps)) == f
    {
      HaltedForever(net, s, steps, f, h) by { hide HaltedAt; }
    }
  }

  lemma HaltedIsSettled(s: System, f: nat, h: nat)
    requires HaltedAt(s, f, h) && Frontier(s) == f
    ensures Settled(s, h)
  {
    hide Offers, Effective, Proposer3, Frontier, NothingOffered, NodesHalted;
    assert NodesHalted(s.nodes, f, h) && NothingOffered(s.nodes, s.soup, f, h);
    HaltedNames(s, f, h);
    forall i | i in s.nodes && Max(s.nodes[i].current.index, h) < f
      ensures !Offered(s, i, Max(s.nodes[i].current.index, h) + 1)
    {
      assert forall m :: m in s.soup ==> Harmless(s.nodes, i, m, f, h) by { HarmlessTo(s, i, f, h); }
    }
  }

  lemma HarmlessTo(s: System, i: Word, f: nat, h: nat)
    requires NothingOffered(s.nodes, s.soup, f, h) && i in s.nodes
    ensures forall m :: m in s.soup ==> Harmless(s.nodes, i, m, f, h)
  {
    hide Harmless;
  }

  lemma HaltedNames(s: System, f: nat, h: nat)
    requires HaltedAt(s, f, h)
    ensures !Named(s, h)
  {
    hide Offers, Effective, Proposer3, NothingOffered;
  }

  /** Where every node has also passed height 1, not even a low height is filled once more. */
  lemma {:induction false} NothingCreated(net: Net, s: System, steps: seq<Step>, f: nat, h: nat)
    requires Inv(net, s) && Legal(net, s, steps) && HaltedAt(s, f, h)
    requires forall i :: i in s.nodes ==> s.nodes[i].current.index >= 2
    ensures Execute(net, s, steps).created == s.created
    decreases |steps|
  {
    hide Inv, Enabled, Do, HaltedAt;
    if steps != [] {
      var s1 := Do(net, s, steps[0]);
      StepInv(net, s, steps[0]);
      StepHalted(net, s, steps[0], f, h);
      StepCreatesNothing(net, s, steps[0], f, h);
      NothingCreated(net, s1, steps[1..], f, h);
    }
  }

  lemma StepCreatesNothing(net: Net, s: System, step: Step, f: nat, h: nat)
    requires Inv(net, s) && Enabled(net, s, step) && HaltedAt(s, f, h)
    requires forall i :: i in s.nodes ==> s.nodes[i].current.index >= 2
    ensures var s' := Do(net, s, step);
            s'.created == s.created && forall i :: i in s'.nodes ==> s'.nodes[i].current.index >= 2
  {
    hide Inv, HaltedAt, Do, Enabled;
    OthersStay(net, s, step);
    StepActs(net, s, step);
    forall i | i in s.nodes
      ensures Do(net, s, step).nodes[i].current.index >= 2
    {
      StepGrows(net, s, step, i);
    }
    if step.TakeTurn? {
      SameNodes(net, s);
      SmallIndex(net, s, step.i);
      HaltedNode(s, step.i, f, h);
      var e := FrontierNode(s, f, h);
      HighTurn(net, s, step.i, e, f);
    }
    CreatedByTurns(net, s, step);
  }

  lemma CreatedByTurns(net: Net, s: System, step: Step)
    requires Enabled(net, s, step) && (step.TakeTurn? ==> !CanPropose(s.nodes[step.i], step.i))
    ensures Do(net, s, step).created == s.created
  {
    hide Boot, HandleNewBlock, CanPropose, AddToPool, BlockKey, ProposerLoop, IsSnapshot, Acceptable, RemoteOk;
  }

  // ---------- A state that is not halted can grow ----------

  /** Some continuation moves the frontier up. */
  ghost predicate CanGrow(net: Net, s: System) {
    exists steps :: Legal(net, s, steps) && Frontier(Execute(net, s, steps)) > Frontier(s)
  }

  lemma GrowsLater(net: Net, s: System, steps: seq<Step>)
    requires Legal(net, s, steps) && Frontier(Execute(net, s, steps)) >= Frontier(s) &&
             CanGrow(net, Execute(net, s, steps))
    ensures CanGrow(net, s)
  {
    hide Legal, Execute, Frontier;
    var s1 := Execute(net, s, steps);
    var more :| Legal(net, s1, more) && Frontier(Execute(net, s1, more)) > Frontier(s1);
    ExecuteAppend(net, s, steps, more);
  }

  function OtherThan(i: Word): (j: Word)
    ensures 1 <= j <= 2 && j != i
  {
    if i == 1 then 2 else 1
  }

  /** Whoever may propose takes its turn. */
  lemma OwnTurn(net: Net, s: System, i: Word) returns (steps: seq<Step>)
    requires Inv(net, s) && CanSign(net) && i in s.nodes && CanPropose(s.nodes[i], i) &&
             s.nodes[i].current.index + 2 < TWO_64
    ensures Legal(net, s, steps)
    ensures var s' := Execute(net, s, steps);
            && Inv(net, s') && OnlyMoved(s, s', i) && s'.nodes[i].current.index == s.nodes[i].current.index + 1
            && s'.nodes[i].last.index == Max(s.nodes[i].last.index, s.nodes[i].current.index + 1)
  {
    hide Inv, Legal, Execute, Acceptable, CanPropose;
    SameNodes(net, s);
    var height: Word := s.nodes[i].current.index + 1;
    assert CanSignAt(net, height);
    var signature :| Acceptable(net.env, height, signature);
    var b, run := ProposeUntilDone(net, s, i, OtherThan(i), signature, 0);
    steps := run;
  }

  /** Only one node's record of the chain differs; messages are added and handlers stay. */
  ghost predicate OnlyMoved(s: System, s': System, i: Word) {
    && i in s.nodes && s'.nodes.Keys == s.nodes.Keys && s'.readers == s.readers && s.soup <= s'.soup
    && forall j :: j in s.nodes && j != i ==> s'.nodes[j] == s.nodes[j]
  }

  lemma MovedUp(s: System, s': System, i: Word)
    requires OnlyMoved(s, s', i) && s.nodes[i].current.index <= s'.nodes[i].current.index
    ensures Frontier(s') == Max(Frontier(s), if s.nodes.Keys == {1, 2, 3} then s'.nodes[i].current.index else 0)
  {
  }

  /** A node at the frontier that may propose moves it. */
  lemma TurnGrows(net: Net, s: System, i: Word)
    requires Inv(net, s) && CanSign(net) && i in s.nodes && CanPropose(s.nodes[i], i)
    requires s.nodes[i].current.index == Frontier(s) && Frontier(s) + 2 < TWO_64
    ensures CanGrow(net, s)
  {
    hide Inv, Legal, Execute, CanSign, CanPropose, OnlyMoved, Frontier;
    SameNodes(net, s);
    var steps := OwnTurn(net, s, i);
    MovedUp(s, Execute(net, s, steps), i);
  }

  // ---------- Climbing ----------

  /** `s'` comes from `s` without a lost message or a used handler above `h`, and below the frontier of `s`;
      nodes moved up to `h` at most. */
  ghost predicate Evolved(s: System, s': System, h: nat) {
    && s.nodes.Keys == {1, 2, 3} == s'.nodes.Keys && s.readers.Keys == {1, 2, 3} == s'.readers.Keys
    && s.soup <= s'.soup && h <= Frontier(s)
    && (forall i :: i in s.nodes ==> Climbed(s.nodes[i], s'.nodes[i], h))
    && HandlersKept(s.readers, s'.readers, h)
  }

  ghost predicate HandlersKept(readers: map<Word, multiset<LastReader>>, readers': map<Word, multiset<LastReader>>,
                               h: nat)
    requires readers.Keys == readers'.Keys
  {
    forall i, r :: i in readers && r in readers[i] && Effective(r, h) ==> r in readers'[i]
  }

  predicate Climbed(n: Node, n': Node, h: nat) {
    n.current.index <= n'.current.index && Max(n'.current.index, h) == Max(n.current.index, h)
  }

  ghost predicate Known(s: System, h: nat) {
    exists j :: j in s.nodes && s.nodes[j].last.index >= h
  }

  /** `s'` comes from `s` like that, and some LAST record names `k`. */
  ghost predicate Risen(net: Net, s: System, s': System, k: nat) {
    Inv(net, s') && Evolved(s, s', k) && Known(s', k)
  }

  lemma EvolvedOn(s: System, s1: System, s2: System, i: Word, h: nat, k: nat)
    requires Evolved(s, s1, h) && h <= k <= Frontier(s) && OnlyMoved(s1, s2, i) && i in s.nodes
    requires s1.nodes[i].current.index <= s2.nodes[i].current.index <= Max(s1.nodes[i].current.index, k)
    ensures Evolved(s, s2, k)
  {
    hide HandlersKept, Climbed, Frontier;
    HandlersKeptOn(s.readers, s1.readers, h, k);
    AllClimbed(s.nodes, s1.nodes, s2.nodes, h, k);
  }

  lemma OnlyNodeMoved(s: System, s': System, i: Word)
    requires OnlyNode(s, s', i) && i in s.nodes
    ensures OnlyMoved(s, s', i)
  {
  }

  /** The frontier did not move. */
  lemma SameFrontier(s: System, s': System, h: nat)
    requires Evolved(s, s', h)
    ensures Frontier(s') == Frontier(s)
  {
    hide HandlersKept;
    assert Climbed(s.nodes[1], s'.nodes[1], h) && Climbed(s.nodes[2], s'.nodes[2], h) &&
           Climbed(s.nodes[3], s'.nodes[3], h);
  }

  /** An answer about LAST that names a height above `h`. */
  lemma RiseByAnswer(net: Net, s: System, s1: System, h: nat, i: Word, b: Block) returns (steps: seq<Step>)
    requires Inv(net, s1) && Evolved(s, s1, h) && !Known(s1, h + 1)
    requires i in s.nodes && LastResponse(i, b) in s.soup && h < b.index <= Frontier(s)
    ensures Legal(net, s1, steps)
    ensures Risen(net, s, Execute(net, s1, steps), b.index)
  {
    hide Inv, Legal, Execute, Effective, Climbed, HandlersKept, Frontier;
    steps := TakeInLast(net, s1, i, b);
    RunInv(net, s1, steps);
    var s2 := Execute(net, s1, steps);
    assert s1.nodes[i].last.index <= h;
    assert s2.nodes[i].last == b;
    EvolvedOn(s, s1, s2, i, h, b.index);
  }

  /** A pending write above `h`. */
  lemma RiseByHandler(net: Net, s: System, s1: System, h: nat, i: Word, r: LastReader) returns (steps: seq<Step>)
    requires Inv(net, s1) && Evolved(s, s1, h) && i in s.readers && r in s.readers[i] && Effective(r, h)
    requires r.block.index <= Frontier(s)
    ensures Legal(net, s1, steps)
    ensures Risen(net, s, Execute(net, s1, steps), r.block.index)
  {
    hide Inv, Legal, Execute, Effective, Climbed, Frontier;
    var write := WriteLast(i, r);
    StepInv(net, s1, write);
    ExecuteOne(net, s1, write);
    steps := [write];
    EffectiveWrites(net, s1, i, r, h);
    EvolvedByWrite(s, s1, Do(net, s1, write), h, i, r);
  }

  lemma EffectiveWrites(net: Net, s: System, i: Word, r: LastReader, h: nat)
    requires i in s.nodes && i in s.readers && r in s.readers[i] && Effective(r, h)
    ensures Enabled(net, s, WriteLast(i, r))
    ensures Do(net, s, WriteLast(i, r)) ==
            Put(s, i, s.nodes[i].(last := r.block)).(readers := s.readers[i := s.readers[i] - multiset{r}])
  {
  }

  lemma EvolvedByWrite(s: System, s1: System, s2: System, h: nat, i: Word, r: LastReader)
    requires Evolved(s, s1, h) && i in s.nodes && Effective(r, h) && r.block.index <= Frontier(s)
    requires s2 == Put(s1, i, s1.nodes[i].(last := r.block)).(readers := s1.readers[i := s1.readers[i] - multiset{r}])
    ensures Evolved(s, s2, r.block.index) && Known(s2, r.block.index)
  {
    hide Climbed, Effective, HandlersKept, Frontier;
    var k := r.block.index;
    assert s2.nodes[i].last == r.block;
    EffectiveIsAbove(r, h);
    HandlersKeptByWrite(s.readers, s1.readers, h, i, r);
    AllClimbed(s.nodes, s1.nodes, s2.nodes, h, k);
  }

  lemma AllClimbed(nodes: map<Word, Node>, nodes1: map<Word, Node>, nodes2: map<Word, Node>, h: nat, k: nat)
    requires nodes.Keys == nodes1.Keys == nodes2.Keys && h <= k
    requires forall j :: j in nodes ==> Climbed(nodes[j], nodes1[j], h)
    requires forall j :: j in nodes ==>
             nodes1[j].current.index <= nodes2[j].current.index <= Max(nodes1[j].current.index, k)
    ensures forall j :: j in nodes ==> Climbed(nodes[j], nodes2[j], k)
  {
    hide Climbed;
    forall j | j in nodes
      ensures Climbed(nodes[j], nodes2[j], k)
    {
      ClimbedOn(nodes[j], nodes1[j], nodes2[j], h, k);
    }
  }

  /** The others above the block that was written are still pending. */
  lemma HandlersKeptByWrite(readers: map<Word, multiset<LastReader>>, readers1: map<Word, multiset<LastReader>>, h: nat,
                            i: Word, r: LastReader)
    requires readers.Keys == readers1.Keys && i in readers && HandlersKept(readers, readers1, h) && r.block.index >= h
    ensures HandlersKept(readers, readers1[i := readers1[i] - multiset{r}], r.block.index)
  {
    forall j, q | j in readers && q in readers[j] && Effective(q, r.block.index)
      ensures q in readers1[i := readers1[i] - multiset{r}][j]
    {
      assert Effective(q, h) && q != r;
    }
  }

  lemma HandlersKeptOn(readers: map<Word, multiset<LastReader>>, readers1: map<Word, multiset<LastReader>>, h: nat,
                       k: nat)
    requires readers.Keys == readers1.Keys && HandlersKept(readers, readers1, h) && h <= k
    ensures HandlersKept(readers, readers1, k)
  {
    forall j, q | j in readers && q in readers[j] && Effective(q, k)
      ensures q in readers1[j]
    {
      assert Effective(q, h);
    }
  }

  lemma EffectiveIsAbove(r: LastReader, h: nat)
    requires Effective(r, h)
    ensures r.block.index > h
  {
  }

  lemma ClimbedOn(n: Node, n1: Node, n2: Node, h: nat, k: nat)
    requires Climbed(n, n1, h) && h <= k && n1.current.index <= n2.current.index <= Max(n1.current.index, k)
    ensures Climbed(n, n2, k)
  {
  }

  /** Node `i`, at height k - 1, takes in the block of height k that a message offers it. */
  lemma TakeIn(net: Net, s: System, i: Word, m: Message, k: nat) returns (steps: seq<Step>)
    requires Inv(net, s) && i in s.nodes && m in s.soup && Offers(s.nodes, m, i, k)
    requires k == s.nodes[i].current.index + 1
    ensures Legal(net, s, steps)
    ensures var s' := Execute(net, s, steps);
            && Inv(net, s') && OnlyMoved(s, s', i)
            && s'.nodes[i].current.index == k && s'.nodes[i].last.index >= k
  {
    hide Inv, Legal, Execute, BlockKey, WellFormed, Enabled, Do;
    SameNodes(net, s);
    if m.BlockRequest? {
      var e := m.to;
      Stored(net, s, e, k);
      var serve := ServeBlock(e, i, BlockKey(k));
      var b := BlockAt(s.nodes[e], k);
      var s1 := s.(soup := s.soup + {BlockResponse(i, b)});
      ServeAsked(net, s, e, i, k);
      StepInv(net, s, serve);
      ExecuteOne(net, s, serve);
      var rest := TakeInBlock(net, s1, i, b);
      ExecuteAppend(net, s, [serve], rest);
      steps := [serve] + rest;
    } else {
      steps := TakeInBlock(net, s, i, m.block);
    }
  }

  lemma ServeAsked(net: Net, s: System, e: Word, i: Word, k: nat)
    requires e in s.nodes && e in s.readers && BlockRequest(i, e, BlockKey(k)) in s.soup &&
             BlockKey(k) in s.nodes[e].blocks
    ensures Enabled(net, s, ServeBlock(e, i, BlockKey(k)))
    ensures Do(net, s, ServeBlock(e, i, BlockKey(k))) == s.(soup := s.soup + {BlockResponse(i, BlockAt(s.nodes[e], k))})
  {
    hide BlockKey;
  }

  lemma TakeInBlock(net: Net, s: System, i: Word, b: Block) returns (steps: seq<Step>)
    requires Inv(net, s) && i in s.nodes && Delivered(s.soup, i, b) && b.index == s.nodes[i].current.index + 1
    ensures Legal(net, s, steps)
    ensures var s' := Execute(net, s, steps);
            && Inv(net, s') && OnlyMoved(s, s', i)
            && s'.nodes[i].current.index == b.index && s'.nodes[i].last.index >= b.index
  {
    hide Inv, Legal, Execute, BlockKey, HandleNewBlock, Covers, Replicated, KeepsBlocks, WellFormed, Tries, Delivered;
    SameNodes(net, s);
    DeliveredIsGenuine(net, s, i, b);
    GenuineIsCreated(net, s, b);
    TriesCover(net, s, b);
    NextIsStored(net, s, i, b, Tries(s));
    var step := HandleBlock(i, b, Tries(s));
    CanHandle(net, s, i, b);
    StepInv(net, s, step);
    ExecuteOne(net, s, step);
    steps := [step];
  }

  lemma CanHandle(net: Net, s: System, i: Word, b: Block)
    requires i in s.nodes && i in s.readers && Delivered(s.soup, i, b) && Covers(net, Tries(s), b)
    ensures Enabled(net, s, HandleBlock(i, b, Tries(s)))
    ensures Do(net, s, HandleBlock(i, b, Tries(s))) == Put(s, i, HandleNewBlock(net.env, s.nodes[i], b, Tries(s)).0)
  {
    hide HandleNewBlock, Tries, RemoteOk, Delivered;
  }

  /** A block offered to a node that can get to the height below it. */
  lemma RiseByBlock(net: Net, s: System, s1: System, h: nat, i: Word, m: Message) returns (steps: seq<Step>, k: nat)
    requires Risen(net, s, s1, h) && !Known(s1, h + 1)
    requires i in s.nodes && m in s.soup && Max(s.nodes[i].current.index, h) < Frontier(s)
    requires Offers(s.nodes, m, i, Max(s.nodes[i].current.index, h) + 1)
    ensures Legal(net, s1, steps) && h < k <= Frontier(s) && Risen(net, s, Execute(net, s1, steps), k)
  {
    hide Inv, Legal, Execute, Offers, Evolved, Frontier, OnlyMoved;
    k := Max(s.nodes[i].current.index, h) + 1;
    var follow := ToLevel(net, s, s1, h, i);
    var s2 := Execute(net, s1, follow);
    StillOffers(s, s2, h, m, i, k);
    var take := TakeIn(net, s2, i, m, k);
    var s3 := Execute(net, s2, take);
    MovedKeys(s2, s3, i);
    EvolvedOn(s, s2, s3, i, h, k);
    ExecuteAppend(net, s1, follow, take);
    steps := follow + take;
  }

  lemma MovedKeys(s: System, s': System, i: Word)
    requires OnlyMoved(s, s', i)
    ensures s'.nodes.Keys == s.nodes.Keys
  {
  }

  /** Node `i` gets to `h`, unless it stands higher. */
  lemma ToLevel(net: Net, s: System, s1: System, h: nat, i: Word) returns (steps: seq<Step>)
    requires Risen(net, s, s1, h) && !Known(s1, h + 1) && i in s.nodes
    ensures Legal(net, s1, steps)
    ensures var s2 := Execute(net, s1, steps);
            && Inv(net, s2) && Evolved(s, s2, h) && s2.nodes.Keys == s.nodes.Keys
            && s2.nodes[i].current.index == Max(s.nodes[i].current.index, h) && s2.nodes[i].last.index == h
  {
    hide Inv, Legal, Execute, Effective, HandlersKept, Frontier, OnlyNode;
    var j := PickKnown(s1, h);
    assert s1.nodes[j].last.index == h && s1.nodes[i].last.index <= h && Climbed(s.nodes[i], s1.nodes[i], h);
    steps := Follow(net, s1, i, j);
    var s2 := Execute(net, s1, steps);
    OnlyNodeMoved(s1, s2, i);
    EvolvedOn(s, s1, s2, i, h, h);
  }

  lemma StillOffers(s: System, s2: System, h: nat, m: Message, i: Word, k: nat)
    requires Evolved(s, s2, h) && m in s.soup && Offers(s.nodes, m, i, k)
    ensures m in s2.soup && Offers(s2.nodes, m, i, k)
  {
    hide BlockKey, HandlersKept, Frontier;
    assert m.BlockRequest? ==> Climbed(s.nodes[m.to], s2.nodes[m.to], h);
  }

  /** At level 1 node 2, if it has not passed height 1, fills height 2 once more. */
  lemma RiseByTurn(net: Net, s: System, s1: System) returns (steps: seq<Step>)
    requires Risen(net, s, s1, 1) && !Known(s1, 2) && CanSign(net)
    requires s.nodes[2].current.index <= 1 && Frontier(s) >= 2
    ensures Legal(net, s1, steps)
    ensures Risen(net, s, Execute(net, s1, steps), 2)
  {
    hide Inv, Legal, Execute, Effective, HandlersKept, Frontier, OnlyMoved, CanSign, CanPropose, Climbed;
    var follow := ToLevel(net, s, s1, 1, 2);
    var s2 := Execute(net, s1, follow);
    SecondTurnIsOpen(s2.nodes[2]);
    var turn := OwnTurn(net, s2, 2);
    var s3 := Execute(net, s2, turn);
    MovedKeys(s2, s3, 2);
    EvolvedOn(s, s2, s3, 2, 1, 2);
    ExecuteAppend(net, s1, follow, turn);
    steps := follow + turn;
  }

  lemma SecondTurnIsOpen(n: Node)
    requires n.current.index == 1 && n.last.index <= 1
    ensures CanPropose(n, 2)
  {
    TurnSchedule(2);
  }

  /** Whatever keeps `s` from being stuck at `h` lifts what is known above `h`. */
  lemma Rise(net: Net, s: System, s1: System, h: nat) returns (steps: seq<Step>, k: nat)
    requires Inv(net, s) && Risen(net, s, s1, h) && CanSign(net)
    requires 1 <= h < Frontier(s) && Frontier(s) >= 2 && !Stuck(s, h)
    requires forall i :: i in s.nodes ==> s.nodes[i].last.index <= h
    ensures Legal(net, s1, steps) && h < k <= Frontier(s) && Risen(net, s, Execute(net, s1, steps), k)
  {
    hide Inv, Legal, Execute, Named, Offered, Known, Frontier, CanSign, Climbed, HandlersKept;
    if Known(s1, h + 1) {
      steps, k := [], h + 1;
      NoSteps(net, s1);
      EvolvedHigher(s, s1, h);
    } else if Settled(s, h) {
      k := 2;
      steps := RiseByTurn(net, s, s1);
    } else if Named(s, h) {
      steps, k := RiseByName(net, s, s1, h);
    } else {
      steps, k := RiseByOffer(net, s, s1, h);
    }
  }

  lemma RiseByName(net: Net, s: System, s1: System, h: nat) returns (steps: seq<Step>, k: nat)
    requires Inv(net, s) && Risen(net, s, s1, h) && !Known(s1, h + 1) && Named(s, h)
    requires forall i :: i in s.nodes ==> s.nodes[i].last.index <= h
    ensures Legal(net, s1, steps) && h < k <= Frontier(s) && Risen(net, s, Execute(net, s1, steps), k)
  {
    hide Inv, Legal, Execute, Evolved, Known, Effective, Frontier;
    if i, b :| i in s.nodes && LastResponse(i, b) in s.soup && b.index > h {
      k := b.index;
      AnswerIsBelow(net, s, i, b);
      steps := RiseByAnswer(net, s, s1, h, i, b);
    } else {
      var i, r :| i in s.readers && r in s.readers[i] && Effective(r, h);
      k := r.block.index;
      HandlerIsBelow(net, s, i, r, h);
      steps := RiseByHandler(net, s, s1, h, i, r);
    }
  }

  lemma RiseByOffer(net: Net, s: System, s1: System, h: nat) returns (steps: seq<Step>, k: nat)
    requires Risen(net, s, s1, h) && !Known(s1, h + 1) && !Named(s, h) && !Settled(s, h)
    ensures Legal(net, s1, steps) && h < k <= Frontier(s) && Risen(net, s, Execute(net, s1, steps), k)
  {
    hide Inv, Legal, Execute, Evolved, Known, Named, Offers, Frontier;
    var i :| i in s.nodes && Max(s.nodes[i].current.index, h) < Frontier(s) &&
             Offered(s, i, Max(s.nodes[i].current.index, h) + 1);
    var m :| m in s.soup && Offers(s.nodes, m, i, Max(s.nodes[i].current.index, h) + 1);
    steps, k := RiseByBlock(net, s, s1, h, i, m);
  }

  lemma EvolvedHigher(s: System, s1: System, h: nat)
    requires Evolved(s, s1, h) && h < Frontier(s)
    ensures Evolved(s, s1, h + 1)
  {
    EvolvedOn(s, s1, s1, 1, h, h + 1);
  }

  lemma AnswerIsBelow(net: Net, s: System, i: Word, b: Block)
    requires Inv(net, s) && LastResponse(i, b) in s.soup
    ensures b.index <= Frontier(s)
  {
    hide NodeInv, WellFormed, HeldByCreator;
    assert MessageOk(Genuine(s), LastResponse(i, b));
    GenuineIsBelow(net, s, b);
  }

  lemma GenuineIsBelow(net: Net, s: System, b: Block)
    requires Inv(net, s) && b in Genuine(s)
    ensures b.index <= Frontier(s)
  {
    hide Inv, WellFormed;
    SameNodes(net, s);
    FrontierIsHighestCreated(net, s);
    if b.index > 0 {
      GenuineIsCreated(net, s, b);
    }
  }

  lemma HandlerIsBelow(net: Net, s: System, i: Word, r: LastReader, h: nat)
    requires Inv(net, s) && i in s.readers && r in s.readers[i] && Effective(r, h)
    ensures h < r.block.index <= Frontier(s)
  {
    hide NodeInv, WellFormed, HeldByCreator, MessageOk;
    GenuineIsBelow(net, s, r.block);
  }

  /** If the state is stuck at no height below the frontier, the frontier can become known to some LAST record. */
  lemma {:induction false} Climb(net: Net, s: System, s1: System, h: nat) returns (steps: seq<Step>)
    requires Inv(net, s) && Risen(net, s, s1, h) && CanSign(net)
    requires 1 <= h <= Frontier(s) && Frontier(s) >= 2
    requires forall i :: i in s.nodes ==> s.nodes[i].last.index <= h
    requires forall g: nat :: h <= g < Frontier(s) ==> !Stuck(s, g)
    ensures Legal(net, s1, steps)
    ensures Risen(net, s, Execute(net, s1, steps), Frontier(s))
    decreases Frontier(s) - h
  {
    hide Inv, Legal, Execute, Risen, Stuck, Frontier, CanSign;
    if h == Frontier(s) {
      steps := [];
      NoSteps(net, s1);
    } else {
      var first, k := Rise(net, s, s1, h);
      var s2 := Execute(net, s1, first);
      var rest := Climb(net, s, s2, k);
      ExecuteAppend(net, s1, first, rest);
      steps := first + rest;
    }
  }

  // ---------- The exact condition ----------

  /** Whoever has stored a block has heard of one. */
  ghost predicate Started(s: System) {
    forall i :: i in s.nodes && s.nodes[i].current.index >= 1 ==> s.nodes[i].last.index >= 1
  }

  /** The node whose turn it is at the frontier gets there once some LAST record names it. */
  lemma KnownFrontierGrows(net: Net, s: System)
    requires Inv(net, s) && CanSign(net) && Frontier(s) >= 2 && Frontier(s) + 2 < TWO_64 && Known(s, Frontier(s))
    ensures CanGrow(net, s)
  {
    hide Inv, Legal, Execute, CanSign, Frontier, OnlyNode, CanPropose, Known;
    SameNodes(net, s);
    BelowFrontier(net, s);
    var f := Frontier(s);
    var p, j := Proposer3(f + 1), PickKnown(s, f);
    var steps := Follow(net, s, p, j);
    var s1 := Execute(net, s, steps);
    FollowedFrontier(net, s, s1, p);
    FrontierTurnIsOpen(s1.nodes[p], f);
    TurnGrows(net, s1, p);
    GrowsLater(net, s, steps);
  }

  /** A node that follows a peer does not move the frontier. */
  lemma FollowedFrontier(net: Net, s: System, s1: System, i: Word)
    requires Inv(net, s) && Inv(net, s1) && OnlyNode(s, s1, i) && i in s.nodes
    requires s.nodes[i].current.index <= s1.nodes[i].current.index
    ensures Frontier(s1) == Frontier(s)
  {
    hide Inv;
    SameNodes(net, s);
    SameNodes(net, s1);
    FrontierIsHighestCreated(net, s);
    FrontierIsHighestCreated(net, s1);
  }

  lemma FrontierTurnIsOpen(n: Node, f: nat)
    requires n.current.index == f >= 2 && n.last.index <= f && f + 1 < TWO_64
    ensures CanPropose(n, Proposer3(f + 1))
  {
    hide Proposer3;
    TurnSchedule(f + 1);
  }

  ghost function PickKnown(s: System, h: nat): (j: Word)
    requires Known(s, h)
    ensures j in s.nodes && s.nodes[j].last.index >= h
  {
    var j :| j in s.nodes && s.nodes[j].last.index >= h;
    j
  }

  lemma BelowFrontier(net: Net, s: System)
    requires Inv(net, s)
    ensures forall i :: i in s.nodes ==> s.nodes[i].current.index <= Frontier(s) && s.nodes[i].last.index <= Frontier(s)
  {
    hide Inv;
    SameNodes(net, s);
    FrontierIsHighestCreated(net, s);
  }

  /** At the start it is node 1's turn. */
  lemma FirstGrows(net: Net, s: System)
    requires Inv(net, s) && CanSign(net) && Frontier(s) == 0
    ensures CanGrow(net, s)
  {
    hide Inv, CanSign;
    SameNodes(net, s);
    BelowFrontier(net, s);
    TurnSchedule(1);
    TurnGrows(net, s, 1);
  }

  /** At frontier 1 node 2 can get to height 1, where it is eligible. */
  lemma SecondGrows(net: Net, s: System)
    requires Inv(net, s) && CanSign(net) && Frontier(s) == 1 && Started(s)
    ensures CanGrow(net, s)
  {
    hide Inv, Legal, Execute, CanSign, Frontier, Started, OnlyNode, CanPropose;
    SameNodes(net, s);
    BelowFrontier(net, s);
    TopHasHeard(s);
    var steps := Follow(net, s, 2, Top(s));
    var s1 := Execute(net, s, steps);
    FollowedFrontier(net, s, s1, 2);
    SecondTurnIsOpen(s1.nodes[2]);
    TurnGrows(net, s1, 2);
    GrowsLater(net, s, steps);
  }

  /** At frontier 2 node 3 is eligible wherever it gets: at height 1 it fills height 2 once more, and then height 3. */
  lemma ThirdGrows(net: Net, s: System)
    requires Inv(net, s) && CanSign(net) && Frontier(s) == 2 && Started(s)
    ensures CanGrow(net, s)
  {
    hide Inv, Legal, Execute, CanSign, Frontier, Started, OnlyNode, CanPropose, OnlyMoved;
    SameNodes(net, s);
    BelowFrontier(net, s);
    TopHasHeard(s);
    var steps := Follow(net, s, 3, Top(s));
    var s1 := Execute(net, s, steps);
    FollowedFrontier(net, s, s1, 3);
    ThirdTurnIsOpen(s1.nodes[3]);
    if s1.nodes[3].current.index == 2 {
      TurnGrows(net, s1, 3);
    } else {
      var turn := OwnTurn(net, s1, 3);
      var s2 := Execute(net, s1, turn);
      MovedUp(s1, s2, 3);
      MovedKeys(s1, s2, 3);
      ThirdTurnIsOpen(s2.nodes[3]);
      TurnGrows(net, s2, 3);
      GrowsLater(net, s1, turn);
    }
    GrowsLater(net, s, steps);
  }

  lemma TopHasHeard(s: System)
    requires Started(s) && s.nodes.Keys == {1, 2, 3} && Frontier(s) >= 1
    ensures s.nodes[Top(s)].last.index >= 1
  {
    hide Frontier;
  }

  lemma ThirdTurnIsOpen(n: Node)
    requires n.last.index <= n.current.index && 1 <= n.current.index <= 2
    ensures CanPropose(n, 3)
  {
    TurnSchedule(n.current.index + 1);
  }

  lemma FrontierTurnGrows(net: Net, s: System)
    requires Inv(net, s) && CanSign(net) && Frontier(s) >= 2 && Frontier(s) + 2 < TWO_64
    requires Proposer3(Frontier(s) + 1) in s.nodes && s.nodes[Proposer3(Frontier(s) + 1)].current.index == Frontier(s)
    ensures CanGrow(net, s)
  {
    hide Inv, CanSign, Frontier;
    BelowFrontier(net, s);
    FrontierTurnIsOpen(s.nodes[Proposer3(Frontier(s) + 1)], Frontier(s));
    TurnGrows(net, s, Proposer3(Frontier(s) + 1));
  }

  function Latest(s: System): nat
    requires s.nodes.Keys == {1, 2, 3}
  {
    Max(s.nodes[1].last.index, Max(s.nodes[2].last.index, s.nodes[3].last.index))
  }

  lemma UnstuckGrows(net: Net, s: System)
    requires Inv(net, s) && CanSign(net) && Started(s) && 2 <= Frontier(s) && Frontier(s) + 2 < TWO_64
    requires forall h: nat :: 1 <= h < Frontier(s) ==> !Stuck(s, h)
    ensures CanGrow(net, s)
  {
    hide Inv, Legal, Execute, CanSign, Stuck, Frontier, Started, Evolved;
    SameNodes(net, s);
    BelowFrontier(net, s);
    TopHasHeard(s);
    var h := Latest(s);
    StartEvolved(s, h);
    var steps := Climb(net, s, s, h);
    var s1 := Execute(net, s, steps);
    SameFrontier(s, s1, Frontier(s));
    KnownFrontierGrows(net, s1);
    GrowsLater(net, s, steps);
  }

  lemma StartEvolved(s: System, h: nat)
    requires s.nodes.Keys == {1, 2, 3} == s.readers.Keys && h == Latest(s) <= Frontier(s)
    ensures Evolved(s, s, h) && Known(s, h)
  {
    hide Effective, Frontier;
    assert s.nodes[1].last.index == h || s.nodes[2].last.index == h || s.nodes[3].last.index == h;
  }

  lemma NotHaltedGrows(net: Net, s: System)
    requires Inv(net, s) && CanSign(net) && Started(s) && Frontier(s) + 2 < TWO_64 && !Halted(s)
    ensures CanGrow(net, s)
  {
    hide Inv, CanSign, Stuck, Frontier, CanGrow, Started, Proposer3, CanPropose;
    SameNodes(net, s);
    BelowFrontier(net, s);
    var f := Frontier(s);
    if f == 0 {
      FirstGrows(net, s);
    } else if f == 1 {
      SecondGrows(net, s);
    } else if f == 2 {
      ThirdGrows(net, s);
    } else if s.nodes[Proposer3(f + 1)].current.index == f {
      FrontierTurnGrows(net, s);
    } else {
      UnstuckGrows(net, s);
    }
  }

  lemma StepStarted(net: Net, s: System, step: Step)
    requires Inv(net, s) && Enabled(net, s, step) && Started(s)
    ensures Started(Do(net, s, step))
  {
    hide Inv, Do, Enabled;
    StepActs(net, s, step);
    OthersStay(net, s, step);
    if step.TakeTurn? || step.HandleBlock? {
      ActingNodeStarted(net, s, step);
    }
  }

  lemma ActingNodeStarted(net: Net, s: System, step: Step)
    requires Inv(net, s) && Enabled(net, s, step) && Started(s) && (step.TakeTurn? || step.HandleBlock?)
    ensures step.i in Do(net, s, step).nodes
    ensures var n' := Do(net, s, step).nodes[step.i]; n'.current.index >= 1 ==> n'.last.index >= 1
  {
    hide Inv, Propose, HandleNewBlock, HexEncode, BlockKey, ProposerLoop, FollowerLoop, Acceptable, IsSnapshot;
    hide RemoteOk, NextBlock, Eligible;
    var n := s.nodes[step.i];
    SmallIndex(net, s, step.i);
    if step.TakeTurn? {
      ProposeShape(n, step.i, step.order, step.signature, step.time);
    } else {
      HandleShape(net.env, n, step.block, step.remote);
    }
  }

  lemma {:induction false} RunStarted(net: Net, s: System, steps: seq<Step>)
    requires Inv(net, s) && Legal(net, s, steps) && Started(s)
    ensures Started(Execute(net, s, steps))
    decreases |steps|
  {
    hide Inv, Enabled, Do, Started;
    if steps != [] {
      StepInv(net, s, steps[0]);
      StepStarted(net, s, steps[0]);
      RunStarted(net, Do(net, s, steps[0]), steps[1..]);
    }
  }

  lemma InitialStarted(net: Net, t1: Word, t2: Word, t3: Word)
    ensures Started(Initial(net, t1, t2, t3))
  {
    hide EnsureTestAccounts;
  }

  /** For every run, with LAST handlers as they are: no continuation moves the frontier exactly when the state it has
      reached is halted. */
  lemma HaltsForeverIff(net: Net, t1: Word, t2: Word, t3: Word, steps: seq<Step>)
    requires Legal(net, Initial(net, t1, t2, t3), steps) && CanSign(net)
    requires Frontier(Execute(net, Initial(net, t1, t2, t3), steps)) + 2 < TWO_64
    ensures var s := Execute(net, Initial(net, t1, t2, t3), steps); !CanGrow(net, s) <==> Halted(s)
  {
    hide Inv, Legal, Execute, Initial, CanSign, Halted, HaltedAt, Started, Frontier;
    InitialInv(net, t1, t2, t3);
    InitialStarted(net, t1, t2, t3);
    RunInv(net, Initial(net, t1, t2, t3), steps);
    RunStarted(net, Initial(net, t1, t2, t3), steps);
    var s := Execute(net, Initial(net, t1, t2, t3), steps);
    if Halted(s) {
      var h := HaltedIsHaltedAt(net, s);
      forall more | Legal(net, s, more)
        ensures Frontier(Execute(net, s, more)) == Frontier(s)
      {
        HaltedForever(net, s, more, Frontier(s), h);
      }
    } else {
      NotHaltedGrows(net, s);
    }
  }

  // ---------- Ordered states never halt ----------

  /** All three nodes come to the frontier. */
  lemma Meet(net: Net, s: System) returns (steps: seq<Step>)
    requires Inv(net, s) && CurrentBelowLast(s)
    ensures Legal(net, s, steps)
    ensures var s' := Execute(net, s, steps); Inv(net, s') && s'.created == s.created && AllAt(s', Frontier(s))
  {
    hide Inv, Legal, Execute, Frontier, Followed, AllAt;
    SameNodes(net, s);
    BelowFrontier(net, s);
    var e := Top(s);
    var a: Word, b: Word := if e == 1 then 2 else 1, if e == 3 then 2 else 3;
    var first := Follow(net, s, a, e);
    var s1 := Execute(net, s, first);
    FollowedKeeps(s, s1, a, e);
    var second := Follow(net, s1, b, e);
    var s2 := Execute(net, s1, second);
    FollowedKeeps(s1, s2, b, e);
    ExecuteAppend(net, s, first, second);
    steps := first + second;
    BelowFrontierLater(net, s, s2);
    AllMet(s2, Frontier(s), e, a, b);
  }

  lemma FollowedKeeps(s: System, s': System, i: Word, j: Word)
    requires i in s.nodes && j in s.nodes && i in s'.nodes && Followed(s, s', i, j) && i != j
    ensures s'.nodes.Keys == s.nodes.Keys && s'.created == s.created
    ensures forall k :: k in s.nodes && k != i ==> s'.nodes[k] == s.nodes[k]
    ensures s'.nodes[i].current.index >= s.nodes[j].last.index
  {
  }

  lemma AllMet(s: System, f: nat, e: Word, a: Word, b: Word)
    requires s.nodes.Keys == {1, 2, 3} == {e, a, b} && forall i :: i in s.nodes ==> s.nodes[i].current.index <= f
    requires s.nodes[e].current.index >= f && s.nodes[a].current.index >= f && s.nodes[b].current.index >= f
    ensures AllAt(s, f)
  {
  }

  lemma BelowFrontierLater(net: Net, s: System, s': System)
    requires Inv(net, s) && Inv(net, s') && s'.created == s.created
    ensures forall i :: i in s'.nodes ==> s'.nodes[i].current.index <= Frontier(s)
  {
    hide Inv;
    SameNodes(net, s);
    SameNodes(net, s');
    FrontierIsHighestCreated(net, s);
    FrontierIsHighestCreated(net, s');
  }

  /** From any reached state in which no node is ahead of its LAST, with LAST handlers in flight and whatever messages
      were lost, the nodes can meet at the frontier and extend it. */
  lemma ChainNeverHalts(net: Net, t1: Word, t2: Word, t3: Word, before: seq<Step>) returns (steps: seq<Step>)
    requires Legal(net, Initial(net, t1, t2, t3), before) && CanSign(net)
    requires CurrentBelowLast(Execute(net, Initial(net, t1, t2, t3), before))
    requires Frontier(Execute(net, Initial(net, t1, t2, t3), before)) + 2 < TWO_64
    ensures var s := Execute(net, Initial(net, t1, t2, t3), before);
            && Legal(net, s, steps)
            && exists b: Block :: b.index == Frontier(s) + 1 && Execute(net, s, steps).created == s.created + {b}
  {
    hide *;
    InitialInv(net, t1, t2, t3);
    RunInv(net, Initial(net, t1, t2, t3), before);
    var _, more := OneBlockMore(net, Execute(net, Initial(net, t1, t2, t3), before));
    steps := more;
  }

  lemma OneBlockMore(net: Net, s: System) returns (b: Block, steps: seq<Step>)
    requires Inv(net, s) && CurrentBelowLast(s) && CanSign(net) && Frontier(s) + 2 < TWO_64
    ensures Legal(net, s, steps) && Execute(net, s, steps).created == s.created + {b} && b.index == Frontier(s) + 1
  {
    hide Inv, Legal, Execute, Acceptable, CanPropose, Frontier, CurrentBelowLast;
    var f := Frontier(s);
    var meet := Meet(net, s);
    var s1 := Execute(net, s, meet);
    SameNodes(net, s1);
    FrontierTurn(net, s1, f);
    var i :| i in s1.nodes && CanPropose(s1.nodes[i], i);
    var height: Word := f + 1;
    assert CanSignAt(net, height);
    var signature :| Acceptable(net.env, height, signature);
    var propose;
    b, propose := ProposeUntilDone(net, s1, i, OtherThan(i), signature, 0);
    ExecuteAppend(net, s, meet, propose);
    steps := meet + propose;
  }
}
