// Three honest nodes, numbered 1 to 3, that exchange messages over a network which may lose,
// duplicate and reorder them.

module Protocol {
  import opened Options
  import opened Words
  import opened Encoding
  import opened Transactions
  import opened Ledgers
  import opened Processing
  import opened Chain

  /** What does not change during a run: configuration, address derivation, and all transactions that are
      ever issued, by the hexadecimal text of their ID. */
  datatype Net = Net(env: Env, addressOf: string -> string, catalog: Pool)

  /** Every message travels on the connection between two nodes. */
  datatype Message =
    | BlockRequest(from: Word, to: Word, key: string)
    | BlockResponse(to: Word, block: Block)
    | BlockProposal(to: Word, block: Block)
    | LastRequest(from: Word, to: Word)
    | LastResponse(to: Word, block: Block)

  /** A LAST handler between its unlocked read and its write. */
  datatype LastReader = LastReader(block: Block, seen: Word)

  /** `created` and `geneses` are history: every block ever proposed, and the first block of each node. */
  datatype System = System(
    nodes: map<Word, Node>, readers: map<Word, multiset<LastReader>>, soup: set<Message>,
    created: set<Block>, geneses: set<Block>)

  datatype Step =
    | TakeTurn(i: Word, to: Word, order: seq<Transaction>, signature: Option<string>, time: Word)
    | HandleBlock(i: Word, block: Block, remote: Pool)
    | RequestNext(i: Word, to: Word)
    | RequestLast(i: Word, to: Word)
    | ServeBlock(i: Word, to: Word, key: string)
    | ServeLast(i: Word, to: Word)
    | ReadLast(i: Word, block: Block)
    | WriteLast(i: Word, reader: LastReader)
    | AddTransaction(i: Word, t: Transaction)
    | Restart(i: Word, time: Word)
    | LoseMessage(i: Word, m: Message)

  ghost predicate Issued(net: Net, t: Transaction) {
    HexEncode(t.id) in net.catalog && net.catalog[HexEncode(t.id)] == t
  }

  /** Peers answer lookups by ID with issued transactions of that ID. */
  ghost predicate RemoteOk(net: Net, remote: Pool) {
    RemoteKeyed(remote) && forall k :: k in remote ==> Issued(net, remote[k])
  }

  function A0(net: Net): map<string, Account> {
    InitialAccounts(net.addressOf)
  }

  function StoreOf(n: Node): Store {
    Store(Some(n.blocks), Some(n.ledger.txs), Some(n.ledger.accounts), Some(n.current), Some(n.last), n.ledger.log)
  }

  function Put(s: System, i: Word, n: Node): System {
    s.(nodes := s.nodes[i := n])
  }

  function Later(last: Block, block: Block, seen: Word): Block {
    if block.index > seen then block else last
  }

  /** There is a connection between the two. */
  predicate Peers(s: System, i: Word, j: Word) {
    i in s.nodes && j in s.nodes && i != j
  }

  /** The block has been sent to this node, as an answer or as a proposal. */
  predicate Delivered(soup: set<Message>, i: Word, b: Block) {
    BlockResponse(i, b) in soup || BlockProposal(i, b) in soup
  }

  ghost predicate Enabled(net: Net, s: System, step: Step) {
    step.i in s.nodes && step.i in s.readers &&
    var n := s.nodes[step.i];
    match step
    case TakeTurn(_, to, order, signature, _) =>
      && Peers(s, step.i, to) && IsSnapshot(n.pool, order)
      && n.current.index + 2 < TWO_64
      && (signature.Some? ==> Acceptable(net.env, Add64(n.current.index, 1), signature.value))
    case HandleBlock(i, b, remote) => Delivered(s.soup, i, b) && RemoteOk(net, remote)
    case RequestNext(i, to) => Peers(s, i, to) && n.current.index < n.last.index
    case RequestLast(i, to) => Peers(s, i, to)
    case ServeBlock(i, to, key) => BlockRequest(to, i, key) in s.soup && key in n.blocks
    case ServeLast(i, to) => LastRequest(to, i) in s.soup
    case ReadLast(i, b) => LastResponse(i, b) in s.soup
    case WriteLast(_, reader) => reader in s.readers[step.i]
    case AddTransaction(_, t) => Issued(net, t) && t.from in n.ledger.accounts
    case Restart(_, _) => true
    case LoseMessage(_, m) => m in s.soup
  }

  ghost function Do(net: Net, s: System, step: Step): System
    requires Enabled(net, s, step)
  {
    var i := step.i;
    var n := s.nodes[i];
    match step
    case TakeTurn(_, to, order, signature, time) =>
      var (n', p) := Propose(n, i, order, signature, time);
      (match p
       case Declined(_) => Put(s, i, n')
       case Proposed(b) => Put(s, i, n').(created := s.created + {b}, soup := s.soup + {BlockProposal(to, b)}))
    case HandleBlock(_, b, remote) => Put(s, i, HandleNewBlock(net.env, n, b, remote).0)
    case RequestNext(_, to) => s.(soup := s.soup + {BlockRequest(i, to, BlockKey(Add64(n.current.index, 1)))})
    case RequestLast(_, to) => s.(soup := s.soup + {LastRequest(i, to)})
    case ServeBlock(_, to, key) => s.(soup := s.soup + {BlockResponse(to, n.blocks[key])})
    case ServeLast(_, to) => s.(soup := s.soup + {LastResponse(to, n.last)})
    case ReadLast(_, b) => s.(readers := s.readers[i := s.readers[i] + multiset{LastReader(b, n.last.index)}])
    case WriteLast(_, r) =>
      Put(s, i, n.(last := Later(n.last, r.block, r.seen))).(readers := s.readers[i := s.readers[i] - multiset{r}])
    case AddTransaction(_, t) => Put(s, i, n.(pool := AddToPool(n.pool, t)))
    case Restart(_, time) => Put(s, i, Boot(StoreOf(n), time, net.addressOf)).(readers := s.readers[i := multiset{}])
    case LoseMessage(_, m) => s.(soup := s.soup - {m})
  }

  ghost predicate Legal(net: Net, s: System, steps: seq<Step>)
    decreases |steps|
  {
    steps == [] || (Enabled(net, s, steps[0]) && Legal(net, Do(net, s, steps[0]), steps[1..]))
  }

  ghost function Execute(net: Net, s: System, steps: seq<Step>): System
    requires Legal(net, s, steps)
    decreases |steps|
  {
    if steps == [] then s else Execute(net, Do(net, s, steps[0]), steps[1..])
  }

  /** Every node starts on an empty store, at its own time. */
  function Initial(net: Net, t1: Word, t2: Word, t3: Word): System {
    System(
      map[1 := Boot(EMPTY_STORE, t1, net.addressOf), 2 := Boot(EMPTY_STORE, t2, net.addressOf),
          3 := Boot(EMPTY_STORE, t3, net.addressOf)],
      map[1 := multiset{}, 2 := multiset{}, 3 := multiset{}],
      {}, {}, {Genesis(t1), Genesis(t2), Genesis(t3)})
  }

  // ---------- The invariant ----------

  /** What every created block looks like; acceptance checks none of the links. */
  ghost predicate WellFormed(net: Net, b: Block) {
    && 1 <= b.index < TWO_64 - 1
    && b.header.version == 1
    && b.header.merkleRoot == BlockKey(b.index)
    && b.header.previousBlockHeader == BlockKey(b.index - 1)
    && Acceptable(net.env, b.index, b.header.signature)
    && Lists(net, b.txns)
  }

  /** The IDs are those of different issued transactions between known accounts. */
  ghost predicate Lists(net: Net, ids: seq<string>) {
    && (forall k :: k in ids ==>
          k in net.catalog && k == HexEncode(net.catalog[k].id) && Knows(A0(net), net.catalog[k]))
    && (forall i, j :: 0 <= i < j < |ids| ==> ids[i] != ids[j])
  }

  ghost predicate IsGenesis(b: Block) {
    b == Genesis(b.header.time)
  }

  /** A ledger is the initial accounts after its log, in order, each entry new and covered at its turn. */
  ghost predicate LedgerInv(net: Net, l: Ledger) {
    && Applies(EmptyLedger(A0(net)), l.log, l)
    && Sound(A0(net), l) && WellKeyed(l.accounts)
    && (forall id :: id in l.txs ==> Issued(net, l.txs[id]))
  }

  /** A mempool holds issued transactions of known senders under their IDs. */
  ghost predicate PoolInv(net: Net, pool: Pool) {
    && PoolKeyed(pool)
    && (forall k :: k in pool ==> Issued(net, pool[k]) && pool[k].from in A0(net))
  }

  ghost predicate NodeInv(net: Net, genuine: set<Block>, n: Node) {
    && Contiguous(n) && AllSigned(n) && n.current.index < TWO_64 - 1
    && (forall key :: key in n.blocks ==> n.blocks[key] in genuine)
    && n.last in genuine
    && LedgerInv(net, n.ledger) && PoolInv(net, n.pool)
  }

  ghost function Genuine(s: System): set<Block> {
    s.created + s.geneses
  }

  /** Every listed transaction is stored. */
  predicate StoresListed(l: Ledger, ids: seq<string>) {
    forall k :: k in ids ==> HexDecode(k).Some? && HexDecode(k).value in l.txs
  }

  /** A created block sits in the trie of a node whose turn it was, and so do its transactions. */
  ghost predicate HeldByCreator(nodes: map<Word, Node>, b: Block) {
    exists i :: i in nodes && Eligible(i, b.index) && Holds(nodes[i], b) && StoresListed(nodes[i].ledger, b.txns)
  }

  /** No stored transaction is lost. */
  ghost predicate KeepsTxs(l: Ledger, l': Ledger) {
    forall id :: id in l.txs ==> id in l'.txs
  }

  ghost predicate MessageOk(genuine: set<Block>, m: Message) {
    match m
    case BlockResponse(_, b) => b in genuine
    case BlockProposal(_, b) => b in genuine
    case LastResponse(_, b) => b in genuine
    case _ => true
  }

  ghost predicate Inv(net: Net, s: System) {
    && s.nodes.Keys == {1, 2, 3} && s.readers.Keys == {1, 2, 3}
    && (forall i :: i in s.nodes ==> NodeInv(net, Genuine(s), s.nodes[i]))
    && (forall b :: b in s.created ==> WellFormed(net, b) && HeldByCreator(s.nodes, b))
    && (forall b :: b in s.geneses ==> IsGenesis(b))
    && (forall m :: m in s.soup ==> MessageOk(Genuine(s), m))
    && (forall i, r :: i in s.readers && r in s.readers[i] ==> r.block in Genuine(s))
  }

  lemma InitialInv(net: Net, t1: Word, t2: Word, t3: Word)
    ensures Inv(net, Initial(net, t1, t2, t3))
  {
    hide LedgerInv;
    hide PoolInv;
    hide NodeInv, Boot;
    var s := Initial(net, t1, t2, t3);
    BootInv(net, Genuine(s), t1);
    BootInv(net, Genuine(s), t2);
    BootInv(net, Genuine(s), t3);
  }

  lemma BootInv(net: Net, genuine: set<Block>, time: Word)
    requires Genesis(time) in genuine
    ensures NodeInv(net, genuine, Boot(EMPTY_STORE, time, net.addressOf))
  {
    hide Sound, WellKeyed, EnsureTestAccounts;
    FirstBoot(time, net.addressOf);
    var n := Boot(EMPTY_STORE, time, net.addressOf);
    assert n.blocks == map[BlockKey(0) := Genesis(time)];
  }

  /** Accounts are never added or removed. */
  lemma SameAccounts(net: Net, l: Ledger)
    requires LedgerInv(net, l)
    ensures l.accounts.Keys == A0(net).Keys
  {
  }

  lemma StillHeld(nodes: map<Word, Node>, i: Word, n: Node, b: Block)
    requires i in nodes && KeepsBlocks(nodes[i], n) && KeepsTxs(nodes[i].ledger, n.ledger) && HeldByCreator(nodes, b)
    ensures HeldByCreator(nodes[i := n], b)
  {
    hide Eligible, BlockKey, HexDecode;
    var j :| j in nodes && Eligible(j, b.index) && Holds(nodes[j], b) && StoresListed(nodes[j].ledger, b.txns);
    assert Holds(nodes[i := n][j], b);
  }

  /** Replacing one node's state by one that keeps its blocks. */
  lemma PutInv(net: Net, s: System, i: Word, n: Node)
    requires Inv(net, s) && i in s.nodes
    requires NodeInv(net, Genuine(s), n) && KeepsBlocks(s.nodes[i], n) && KeepsTxs(s.nodes[i].ledger, n.ledger)
    ensures Inv(net, Put(s, i, n))
  {
    hide NodeInv, WellFormed, MessageOk, HeldByCreator, IsGenesis, KeepsBlocks, KeepsTxs;
    forall b | b in s.created
      ensures HeldByCreator(s.nodes[i := n], b)
    {
      StillHeld(s.nodes, i, n, b);
    }
  }

  /** A node that has put a new block on top, with the block added to the history. */
  lemma CreateInv(net: Net, s: System, i: Word, to: Word, n: Node, b: Block)
    requires Inv(net, s) && i in s.nodes
    requires NodeInv(net, Genuine(s) + {b}, n) && KeepsBlocks(s.nodes[i], n) && KeepsTxs(s.nodes[i].ledger, n.ledger)
    requires WellFormed(net, b) && Eligible(i, b.index) && Holds(n, b) && StoresListed(n.ledger, b.txns)
    ensures Inv(net, Put(s, i, n).(created := s.created + {b}, soup := s.soup + {BlockProposal(to, b)}))
  {
    hide NodeInv, WellFormed, HeldByCreator, IsGenesis, KeepsBlocks, KeepsTxs, StoresListed;
    var s' := Put(s, i, n).(created := s.created + {b}, soup := s.soup + {BlockProposal(to, b)});
    assert Genuine(s') == Genuine(s) + {b};
    forall j | j in s.nodes
      ensures NodeInv(net, Genuine(s'), s.nodes[j])
    {
      NodeInvGrows(net, Genuine(s), Genuine(s'), s.nodes[j]);
    }
    HeldByNew(s.nodes, i, n, b);
    forall c | c in s.created
      ensures HeldByCreator(s'.nodes, c)
    {
      StillHeld(s.nodes, i, n, c);
    }
  }

  lemma HeldByNew(nodes: map<Word, Node>, i: Word, n: Node, b: Block)
    requires i in nodes && Eligible(i, b.index) && Holds(n, b) && StoresListed(n.ledger, b.txns)
    ensures HeldByCreator(nodes[i := n], b)
  {
    assert Holds(nodes[i := n][i], b);
  }

  lemma ReadersInv(net: Net, s: System, i: Word, readers: multiset<LastReader>)
    requires Inv(net, s) && i in s.nodes
    requires forall r :: r in readers ==> r.block in Genuine(s)
    ensures Inv(net, s.(readers := s.readers[i := readers]))
  {
    hide NodeInv, WellFormed, MessageOk, HeldByCreator, IsGenesis;
  }

  lemma SoupInv(net: Net, s: System, soup: set<Message>)
    requires Inv(net, s) && forall m :: m in soup ==> MessageOk(Genuine(s), m)
    ensures Inv(net, s.(soup := soup))
  {
    hide NodeInv, WellFormed, MessageOk, HeldByCreator, IsGenesis;
  }

  /** A larger history admits no fewer blocks. */
  lemma NodeInvGrows(net: Net, genuine: set<Block>, more: set<Block>, n: Node)
    requires NodeInv(net, genuine, n) && genuine <= more
    ensures NodeInv(net, more, n)
  {
    hide Contiguous, AllSigned, LedgerInv, PoolInv;
  }

  /** The chain stays as it is; ledger, mempool and LAST may move. */
  lemma SameChainInv(net: Net, genuine: set<Block>, n: Node, n': Node)
    requires NodeInv(net, genuine, n) && n'.blocks == n.blocks && n'.current == n.current
    requires n'.last in genuine && LedgerInv(net, n'.ledger) && PoolInv(net, n'.pool)
    ensures NodeInv(net, genuine, n') && KeepsBlocks(n, n')
  {
    hide LedgerInv, PoolInv, BlockKey;
  }

  // ---------- Ledger and mempool across the two loops ----------

  lemma ProposerLoopInv(net: Net, l: Ledger, pool: Pool, order: seq<Transaction>)
    requires LedgerInv(net, l) && PoolInv(net, pool) && IsSnapshot(pool, order)
    ensures var q := ProposerLoop(StartProposer(l, pool), order);
            && LedgerInv(net, q.ledger) && PoolInv(net, q.pool) && Lists(net, q.ids) && l.log <= q.ledger.log
            && KeepsTxs(l, q.ledger) && StoresListed(q.ledger, q.ids)
  {
    hide ProposerLoop, Applies, HexEncode, LedgerInv, Lists, InitialAccounts;
    var q := ProposerLoop(StartProposer(l, pool), order);
    var ts := ProposerApplies(StartProposer(l, pool), order);
    ProposerPoolShrinks(StartProposer(l, pool), order);
    forall t | t in ts
      ensures Issued(net, t)
    {
      var i :| 0 <= i < |order| && order[i] == t;
    }
    AppliedInv(net, l, ts, q.ledger);
    assert q.ids == HexIds(ts);
  }

  lemma FollowerLoopInv(net: Net, l: Ledger, pool: Pool, ids: seq<string>, remote: Pool)
    requires LedgerInv(net, l) && PoolInv(net, pool) && RemoteOk(net, remote)
    ensures var g := FollowerLoop(Follower(l, pool, None), ids, remote);
            LedgerInv(net, g.ledger) && PoolInv(net, g.pool) && l.log <= g.ledger.log && KeepsTxs(l, g.ledger)
  {
    hide FollowerLoop, Applies, HexEncode, HexDecode, Settle, InitialAccounts;
    var ts := FollowerApplies(Follower(l, pool, None), ids, remote);
    AppliedInv(net, l, ts, FollowerLoop(Follower(l, pool, None), ids, remote).ledger);
  }

  lemma InitialWellKeyed(net: Net)
    ensures WellKeyed(A0(net))
  {
    FirstBoot(0, net.addressOf);
  }

  lemma AppliedAreStored(l: Ledger, ts: seq<Transaction>, r: Ledger)
    requires Applies(l, ts, r)
    ensures StoresListed(r, HexIds(ts))
  {
    hide HexEncode, Applies;
    AppliesGrows(l, ts, r);
    forall k | k in HexIds(ts)
      ensures HexDecode(k).Some? && HexDecode(k).value in r.txs
    {
      var i :| 0 <= i < |ts| && HexIds(ts)[i] == k;
      assert HexDecode(HexEncode(ts[i].id)) == Some(ts[i].id);
    }
  }

  /** What was applied is issued and known, and no ID occurs twice. */
  lemma AppliedLists(net: Net, l: Ledger, ts: seq<Transaction>, r: Ledger)
    requires Applies(l, ts, r) && Sound(A0(net), r)
    requires forall t :: t in ts ==> Issued(net, t)
    ensures Lists(net, HexIds(ts))
  {
    hide HexEncode, Applies, InitialAccounts, Settle, LogMatchesTrie;
    AppliesGrows(l, ts, r);
    ListedDistinct(l, ts, r);
    forall k | k in HexIds(ts)
      ensures k in net.catalog && k == HexEncode(net.catalog[k].id) && Knows(A0(net), net.catalog[k])
    {
      var i :| 0 <= i < |ts| && HexIds(ts)[i] == k;
      assert Issued(net, ts[i]) && r.txs[ts[i].id] == ts[i];
    }
  }

  /** Applying issued transactions keeps the ledger sound. */
  lemma AppliedInv(net: Net, l: Ledger, ts: seq<Transaction>, r: Ledger)
    requires LedgerInv(net, l) && Applies(l, ts, r)
    requires forall t :: t in ts ==> Issued(net, t)
    ensures LedgerInv(net, r) && Lists(net, HexIds(ts)) && r.log == l.log + ts
    ensures KeepsTxs(l, r) && StoresListed(r, HexIds(ts))
  {
    hide HexEncode, HexDecode, Applies, Apply, InitialAccounts, Sound, Lists, StoresListed;
    AppliedAreStored(l, ts, r);
    InitialWellKeyed(net);
    AppliesSound(A0(net), l, ts, r);
    AppliesGrows(l, ts, r);
    AppliesCompose(EmptyLedger(A0(net)), l.log, l, ts, r);
    SupplyModulo(l, ts, r);
    AppliedLists(net, l, ts, r);
    forall id | id in r.txs
      ensures Issued(net, r.txs[id])
    {
      if id !in l.txs {
        var i :| 0 <= i < |ts| && ts[i].id == id;
        assert r.txs[id] == ts[i];
      }
    }
  }

  // ---------- Every step keeps the invariant ----------

  lemma TakeTurnInv(net: Net, s: System, step: Step)
    requires Inv(net, s) && step.TakeTurn? && Enabled(net, s, step)
    ensures Inv(net, Do(net, s, step))
  {
    hide NodeInv, LedgerInv, PoolInv, Propose, ProposerLoop, Acceptable, HeldByCreator, MessageOk, IsSnapshot;
    hide WellFormed;
    var i, n := step.i, s.nodes[step.i];
    var (n', p) := Propose(n, i, step.order, step.signature, step.time);
    LedgerAndPool(net, Genuine(s), n);
    ProposeShape(n, i, step.order, step.signature, step.time);
    ProposerLoopInv(net, n.ledger, n.pool, step.order);
    match p {
      case Declined(_) =>
        SameChainInv(net, Genuine(s), n, n');
        PutInv(net, s, i, n');
      case Proposed(b) =>
        ProposedInv(net, s, i, step.to, n', b);
    }
  }

  lemma LedgerAndPool(net: Net, genuine: set<Block>, n: Node)
    requires NodeInv(net, genuine, n)
    ensures LedgerInv(net, n.ledger) && PoolInv(net, n.pool) && n.last in genuine
  {
  }

  lemma ProposedInv(net: Net, s: System, i: Word, to: Word, n': Node, b: Block)
    requires Inv(net, s) && i in s.nodes && Appended(s.nodes[i], n', b) && b.index < TWO_64 - 1
    requires b == NextBlock(s.nodes[i].current, b.header.signature, b.header.time, b.txns)
    requires Eligible(i, b.index) && Acceptable(net.env, b.index, b.header.signature)
    requires LedgerInv(net, n'.ledger) && PoolInv(net, n'.pool) && Lists(net, b.txns)
    requires KeepsTxs(s.nodes[i].ledger, n'.ledger) && StoresListed(n'.ledger, b.txns)
    ensures Inv(net, Put(s, i, n').(created := s.created + {b}, soup := s.soup + {BlockProposal(to, b)}))
  {
    hide NodeInv, LedgerInv, PoolInv, Acceptable, HeldByCreator, MessageOk, Lists, BlockKey, Eligible, KeepsTxs;
    hide StoresListed;
    CurrentShape(net, s, i);
    assert WellFormed(net, b);
    AppendKeepsNode(net, Genuine(s), s.nodes[i], n', b);
    CreateInv(net, s, i, to, n', b);
  }

  lemma AppendKeepsNode(net: Net, genuine: set<Block>, n: Node, n': Node, b: Block)
    requires NodeInv(net, genuine, n) && Appended(n, n', b)
    requires Acceptable(net.env, b.index, b.header.signature) && b.index < TWO_64 - 1
    requires LedgerInv(net, n'.ledger) && PoolInv(net, n'.pool)
    ensures NodeInv(net, genuine + {b}, n') && KeepsBlocks(n, n') && Holds(n', b)
  {
    hide LedgerInv, PoolInv;
    EmptySignatureRejected(net.env, b.index);
    AppendKeeps(n, n', b);
  }

  /** Genesis and created blocks alike carry version 1 and the key text of their own height. */
  lemma CurrentShape(net: Net, s: System, i: Word)
    requires Inv(net, s) && i in s.nodes
    ensures var c := s.nodes[i].current; c.header.version == 1 && c.header.merkleRoot == BlockKey(c.index)
  {
    hide LedgerInv, PoolInv, MessageOk, Acceptable, HeldByCreator, Lists, AllSigned;
    var n := s.nodes[i];
    assert BlockKey(n.current.index) in n.blocks;
    assert n.current in Genuine(s);
    if n.current in s.created {
      assert WellFormed(net, n.current);
    } else {
      assert IsGenesis(n.current);
    }
  }

  /** A genuine block above height 0 was created. */
  lemma GenuineIsCreated(net: Net, s: System, b: Block)
    requires Inv(net, s) && b in Genuine(s) && b.index > 0
    ensures b in s.created && WellFormed(net, b)
  {
    hide NodeInv, WellFormed, HeldByCreator, MessageOk;
    assert b !in s.created ==> IsGenesis(b);
  }

  lemma DeliveredIsGenuine(net: Net, s: System, i: Word, b: Block)
    requires Inv(net, s) && Delivered(s.soup, i, b)
    ensures b in Genuine(s)
  {
    hide NodeInv, WellFormed, HeldByCreator, IsGenesis;
    assert MessageOk(Genuine(s), BlockResponse(i, b)) || MessageOk(Genuine(s), BlockProposal(i, b));
  }

  lemma HandledNodeInv(net: Net, s: System, n: Node, b: Block, remote: Pool)
    requires Inv(net, s) && NodeInv(net, Genuine(s), n) && b in Genuine(s) && RemoteOk(net, remote)
    ensures var n' := HandleNewBlock(net.env, n, b, remote).0;
            NodeInv(net, Genuine(s), n') && KeepsBlocks(n, n') && KeepsTxs(n.ledger, n'.ledger)
  {
    hide Inv, NodeInv, LedgerInv, PoolInv, HandleNewBlock, FollowerLoop, Acceptable, BlockKey, Lists, RemoteOk;
    hide KeepsBlocks;
    var n' := HandleNewBlock(net.env, n, b, remote).0;
    LedgerAndPool(net, Genuine(s), n);
    assert n.current.index < TWO_64 - 1 by { hide *; BelowLimit(net, Genuine(s), n); }
    HandleShape(net.env, n, b, remote);
    FollowerLoopInv(net, n.ledger, n.pool, b.txns, remote);
    if SameRecords(n, n') {
      SameChainInv(net, Genuine(s), n, n');
    } else {
      GenuineIsCreated(net, s, b);
      AppendKeepsNode(net, Genuine(s), n, n', b);
      assert Genuine(s) + {b} == Genuine(s);
    }
  }

  lemma BelowLimit(net: Net, genuine: set<Block>, n: Node)
    requires NodeInv(net, genuine, n)
    ensures n.current.index < TWO_64 - 1
  {
  }

  lemma HandleBlockInv(net: Net, s: System, step: Step)
    requires Inv(net, s) && step.HandleBlock? && Enabled(net, s, step)
    ensures Inv(net, Do(net, s, step))
  {
    hide NodeInv, HandleNewBlock, WellFormed, HeldByCreator, MessageOk, IsGenesis, RemoteOk, KeepsBlocks;
    DeliveredIsGenuine(net, s, step.i, step.block);
    HandledNodeInv(net, s, s.nodes[step.i], step.block, step.remote);
    PutInv(net, s, step.i, HandleNewBlock(net.env, s.nodes[step.i], step.block, step.remote).0);
  }

  /** A restart gives back the node with an empty mempool. */
  lemma RestartState(net: Net, n: Node, time: Word)
    requires n.ledger.accounts.Keys == A0(net).Keys
    ensures Boot(StoreOf(n), time, net.addressOf) == n.(pool := map[])
  {
    hide Boot, InitialAccounts;
    RestartIdentity(StoreOf(n), n, time, net.addressOf);
  }

  lemma EmptyPoolInv(net: Net, genuine: set<Block>, n: Node)
    requires NodeInv(net, genuine, n)
    ensures NodeInv(net, genuine, n.(pool := map[])) && KeepsBlocks(n, n.(pool := map[]))
    ensures n.ledger.accounts.Keys == A0(net).Keys
  {
    hide NodeInv, LedgerInv, InitialAccounts, KeepsBlocks;
    LedgerAndPool(net, genuine, n);
    SameAccounts(net, n.ledger);
    SameChainInv(net, genuine, n, n.(pool := map[]));
  }

  lemma RestartInv(net: Net, s: System, step: Step)
    requires Inv(net, s) && step.Restart? && Enabled(net, s, step)
    ensures Inv(net, Do(net, s, step))
    ensures Boot(StoreOf(s.nodes[step.i]), step.time, net.addressOf) == s.nodes[step.i].(pool := map[])
    ensures Do(net, s, step) == s.(nodes := s.nodes[step.i := s.nodes[step.i].(pool := map[])],
                                   readers := s.readers[step.i := multiset{}])
  {
    hide Boot, NodeInv, WellFormed, HeldByCreator, MessageOk, InitialAccounts, IsGenesis, KeepsBlocks, StoreOf;
    var n, n' := s.nodes[step.i], s.nodes[step.i].(pool := map[]);
    EmptyPoolInv(net, Genuine(s), n);
    RestartState(net, n, step.time);
    PutInv(net, s, step.i, n');
    ReadersInv(net, Put(s, step.i, n'), step.i, multiset{});
  }

  lemma LastInv(net: Net, s: System, step: Step)
    requires Inv(net, s) && (step.ReadLast? || step.WriteLast?) && Enabled(net, s, step)
    ensures Inv(net, Do(net, s, step))
  {
    hide WellFormed, HeldByCreator, LedgerInv, PoolInv, Contiguous, AllSigned;
    var i, n := step.i, s.nodes[step.i];
    match step {
      case ReadLast(_, b) =>
        assert MessageOk(Genuine(s), LastResponse(i, b));
        ReadersInv(net, s, i, s.readers[i] + multiset{LastReader(b, n.last.index)});
      case WriteLast(_, r) =>
        var n' := n.(last := Later(n.last, r.block, r.seen));
        SameChainInv(net, Genuine(s), n, n');
        PutInv(net, s, i, n');
        ReadersInv(net, Put(s, i, n'), i, s.readers[i] - multiset{r});
    }
  }

  lemma AddKeepsPool(net: Net, pool: Pool, t: Transaction)
    requires PoolInv(net, pool) && Issued(net, t) && t.from in A0(net)
    ensures PoolInv(net, AddToPool(pool, t))
  {
    hide HexEncode, InitialAccounts;
  }

  lemma AddTransactionInv(net: Net, s: System, step: Step)
    requires Inv(net, s) && step.AddTransaction? && Enabled(net, s, step)
    ensures Inv(net, Do(net, s, step))
  {
    hide NodeInv, WellFormed, HeldByCreator, MessageOk, LedgerInv, PoolInv, AddToPool, Issued, InitialAccounts;
    var n := s.nodes[step.i];
    var n' := n.(pool := AddToPool(n.pool, step.t));
    LedgerAndPool(net, Genuine(s), n);
    SameAccounts(net, n.ledger);
    AddKeepsPool(net, n.pool, step.t);
    SameChainInv(net, Genuine(s), n, n');
    PutInv(net, s, step.i, n');
  }

  lemma MessagesInv(net: Net, s: System, step: Step)
    requires Inv(net, s) && Enabled(net, s, step)
    requires step.RequestNext? || step.RequestLast? || step.ServeBlock? || step.ServeLast? || step.LoseMessage?
    ensures Inv(net, Do(net, s, step))
  {
    hide WellFormed, HeldByCreator, Contiguous, AllSigned, LedgerInv, PoolInv, BlockKey;
    SoupInv(net, s, Do(net, s, step).soup);
  }

  lemma StepInv(net: Net, s: System, step: Step)
    requires Inv(net, s) && Enabled(net, s, step)
    ensures Inv(net, Do(net, s, step))
  {
    hide Inv, Enabled, Do;
    match step {
      case TakeTurn(_, _, _, _, _) => TakeTurnInv(net, s, step);
      case HandleBlock(_, _, _) => HandleBlockInv(net, s, step);
      case ReadLast(_, _) => LastInv(net, s, step);
      case WriteLast(_, _) => LastInv(net, s, step);
      case AddTransaction(_, _) => AddTransactionInv(net, s, step);
      case Restart(_, _) => RestartInv(net, s, step);
      case _ => MessagesInv(net, s, step);
    }
  }

  lemma {:induction false} RunInv(net: Net, s: System, steps: seq<Step>)
    requires Inv(net, s) && Legal(net, s, steps)
    ensures Inv(net, Execute(net, s, steps))
    decreases |steps|
  {
    if steps != [] {
      StepInv(net, s, steps[0]);
      RunInv(net, Do(net, s, steps[0]), steps[1..]);
    }
  }
}
