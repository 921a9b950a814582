// One node: its block trie, the CURRENT and LAST records, the ledger and the mempool, and what
// proposing a block, handling a block and restarting do to them.

module Chain {
  import opened Options
  import opened Words
  import opened Encoding
  import opened Transactions
  import opened Ledgers
  import opened Processing
  import FiniteSums

  datatype BlockHeader = BlockHeader(
    version: Word, previousBlockHeader: string, merkleRoot: string,
    rootAccount: string, rootTransaction: string, time: Word, signature: string)

  datatype Block = Block(header: BlockHeader, index: Word, txns: seq<string>)

  datatype Node = Node(blocks: map<string, Block>, current: Block, last: Block, ledger: Ledger, pool: Pool)

  datatype Failure =
    | NotStarted | NotEligible | SigningFailed | BadIndex | BlockExists | NoSuchNode | BadSignature
    | LedgerFault(fault: Fault)

  datatype Proposal = Proposed(block: Block) | Declined(failure: Failure)

  // ---------- Turn rule ----------

  /** The wrapped uint64 test (height - index) % 3 == 0. */
  predicate Eligible(index: Word, height: Word) {
    Sub64(height, index) % 3 == 0
  }

  predicate CanPropose(n: Node, self: Word) {
    n.last.index <= n.current.index && Eligible(self, Add64(n.current.index, 1))
  }

  /** From height 3 on, the one proposer of a height. */
  function Proposer3(height: nat): (i: Word)
    requires height >= 1
    ensures 1 <= i <= 3
  {
    (height - 1) % 3 + 1
  }

  /** From height 3 exactly one of the nodes 1, 2, 3 passes the test; because 2^64 leaves
      remainder 1 modulo 3, heights 1 and 2 each admit a second node. */
  lemma TurnSchedule(height: Word)
    requires height >= 1
    ensures height >= 3 ==> forall i: Word :: 1 <= i <= 3 ==> (Eligible(i, height) <==> i == Proposer3(height))
    ensures height == 1 ==> forall i: Word :: 1 <= i <= 3 ==> (Eligible(i, height) <==> i == 1 || i == 2)
    ensures height == 2 ==> forall i: Word :: 1 <= i <= 3 ==> (Eligible(i, height) <==> i == 2 || i == 3)
  {
    if height >= 3 {
      forall i: Word | 1 <= i <= 3
        ensures Eligible(i, height) <==> i == Proposer3(height)
      {
        assert Sub64(height, i) == height - i;
      }
    }
  }

  /** Exactly the heights from 3 on have a single proposer. */
  lemma UniqueTurnIff(height: Word)
    requires height >= 1
    ensures (forall i: Word, j: Word ::
               1 <= i <= 3 && 1 <= j <= 3 && Eligible(i, height) && Eligible(j, height) ==> i == j)
            <==> height >= 3
  {
    TurnSchedule(height);
    if height == 1 {
      assert Eligible(1, 1) && Eligible(2, 1);
    } else if height == 2 {
      assert Eligible(2, 2) && Eligible(3, 2);
    }
  }

  /** Three heights in a row from 3 on give every node its turn. */
  lemma TurnsRotate(height: Word, i: Word)
    requires 3 <= height < TWO_64 - 2 && 1 <= i <= 3
    ensures exists h: Word :: height <= h <= height + 2 && Proposer3(h) == i && Eligible(i, h)
  {
    var h: Word := height + (i - Proposer3(height)) % 3;
    assert Proposer3(h) == i;
    TurnSchedule(h);
  }

  // ---------- Storing a block ----------

  function SaveBlock(n: Node, b: Block): (Node, Option<Failure>) {
    var stored := n.blocks[BlockKey(b.index) := b];
    if b.index > 0 then
      if b.index != Add64(n.current.index, 1) then (n, Some(BadIndex))
      else (n.(current := b, last := if b.index > n.last.index then b else n.last, blocks := stored), None)
    else
      (n.(current := b, last := b, blocks := stored), None)
  }

  /** The trie holds exactly block_0 .. block_CURRENT, each under the key of its own index. */
  ghost predicate Contiguous(n: Node) {
    && (forall key :: key in n.blocks ==>
          n.blocks[key].index <= n.current.index && key == BlockKey(n.blocks[key].index))
    && (forall h: nat :: h <= n.current.index ==> BlockKey(h) in n.blocks)
    && n.blocks[BlockKey(n.current.index)] == n.current
  }

  ghost predicate AllSigned(n: Node) {
    forall key :: key in n.blocks && n.blocks[key].index > 0 ==> n.blocks[key].header.signature != ""
  }

  ghost predicate Holds(n: Node, b: Block) {
    BlockKey(b.index) in n.blocks && n.blocks[BlockKey(b.index)] == b
  }

  /** Nothing but ledger and mempool changed. */
  ghost predicate SameRecords(n: Node, n': Node) {
    n'.blocks == n.blocks && n'.current == n.current && n'.last == n.last
  }

  /** `b` went on top. */
  ghost predicate Appended(n: Node, n': Node, b: Block) {
    && b.index == n.current.index + 1 && n'.current == b
    && n'.blocks == n.blocks[BlockKey(b.index) := b]
    && n'.last == if b.index > n.last.index then b else n.last
  }

  /** No stored block is lost or changed. */
  ghost predicate KeepsBlocks(n: Node, n': Node) {
    forall key :: key in n.blocks ==> key in n'.blocks && n'.blocks[key] == n.blocks[key]
  }

  lemma SaveBlockOnlyNext(n: Node, b: Block)
    requires n.current.index < TWO_64 - 1 && b.index > 0
    ensures var (n', failure) := SaveBlock(n, b);
            && n'.ledger == n.ledger && n'.pool == n.pool
            && if b.index == n.current.index + 1 then failure == None && Appended(n, n', b)
               else failure == Some(BadIndex) && n' == n
  {
  }

  lemma AppendKeeps(n: Node, n': Node, b: Block)
    requires Contiguous(n) && AllSigned(n) && Appended(n, n', b) && b.header.signature != ""
    ensures Contiguous(n') && AllSigned(n') && KeepsBlocks(n, n')
  {
    forall key | key in n.blocks
      ensures key != BlockKey(b.index)
    {
      BlockKeysNeverCollide(n.blocks[key].index, b.index);
    }
  }

  // ---------- Proposing ----------

  /** The body of ProposeNewBlock. `order` is the order the mempool iteration happened to take,
      `signature` the result of signing the key text, `time` the clock. */
  function Propose(n: Node, self: Word, order: seq<Transaction>, signature: Option<string>, time: Word):
    (Node, Proposal)
  {
    if !CanPropose(n, self) then (n, Declined(NotEligible))
    else
      var p := ProposerLoop(StartProposer(n.ledger, n.pool), order);
      var n1 := n.(ledger := p.ledger, pool := p.pool);
      if p.fault.Some? then (n1, Declined(LedgerFault(p.fault.value)))
      else if signature.None? then (n1, Declined(SigningFailed))
      else
        var b := NextBlock(n.current, signature.value, time, p.ids);
        var saved := SaveBlock(n1, b);
        if saved.1.Some? then (saved.0, Declined(saved.1.value)) else (saved.0, Proposed(b))
  }

  function NextBlock(current: Block, signature: string, time: Word, ids: seq<string>): Block {
    var height := Add64(current.index, 1);
    Block(BlockHeader(current.header.version, current.header.merkleRoot, BlockKey(height), "", "", time, signature),
          height, ids)
  }

  // ---------- Signatures ----------

  datatype NodeConfig = NodeConfig(publicKey: string, index: int)

  /** The two ECDSA primitives used: whether bytes are a public key, and recovery of the signer's key. */
  datatype Ecdsa = Ecdsa(isKey: seq<Byte> -> bool, recover: (string, seq<Byte>) -> Option<seq<Byte>>)

  datatype Env = Env(nodes: seq<NodeConfig>, ecdsa: Ecdsa)

  /** None is an error return. The boolean says whether the key matches. */
  function VerifySignature(ecdsa: Ecdsa, publicKeyHex: string, message: string, signatureHex: string): Option<bool> {
    match (HexDecode(signatureHex), HexDecode(publicKeyHex))
    case (Some(signature), Some(key)) =>
      if !ecdsa.isKey(key) then None
      else (match ecdsa.recover(message, signature)
            case None => None
            case Some(signer) => Some(key == signer))
    case _ => None
  }

  /** The boolean that HandleNewBlock drops says whether the key given is the one recovered. */
  lemma VerdictIff(ecdsa: Ecdsa, key: seq<Byte>, message: string, signature: seq<Byte>)
    ensures var verdict := VerifySignature(ecdsa, HexEncode(key), message, HexEncode(signature));
            && (verdict.Some? <==> ecdsa.isKey(key) && ecdsa.recover(message, signature).Some?)
            && (verdict == Some(true) <==> ecdsa.isKey(key) && ecdsa.recover(message, signature) == Some(key))
  {
    hide HexDecode, HexEncode;
    assert HexDecode(HexEncode(key)) == Some(key) && HexDecode(HexEncode(signature)) == Some(signature);
  }

  /** The check made on a transaction that arrives; here a boolean that is false does turn it away, and the
      sender's key need not be a point of the curve. */
  function VerifyTransactionSignature(ecdsa: Ecdsa, t: Transaction, publicKeyHex: string): Option<bool> {
    match (HexDecode(t.signature), HexDecode(publicKeyHex))
    case (Some(signature), Some(key)) =>
      (match ecdsa.recover(SigningMessage(t), signature)
       case None => None
       case Some(signer) => Some(key == signer))
    case _ => None
  }

  /** The sender has an account, and its key signed the transaction. */
  predicate Admissible(ecdsa: Ecdsa, accounts: map<string, Account>, t: Transaction) {
    t.from in accounts && VerifyTransactionSignature(ecdsa, t, accounts[t.from].publicKey) == Some(true)
  }

  /** What is admitted, spelled out: the sender has an account, both texts decode, and the key recovered from the
      signature over sender, recipient, amount and time, joined by underscores, is the account's key. */
  lemma AdmittedIff(ecdsa: Ecdsa, accounts: map<string, Account>, t: Transaction)
    ensures Admissible(ecdsa, accounts, t) <==>
            && t.from in accounts && HexDecode(t.signature).Some? && HexDecode(accounts[t.from].publicKey).Some?
            && ecdsa.recover(t.from + "_" + t.to + "_" + Decimal(t.amount) + "_" + Decimal(t.timestamp),
                             HexDecode(t.signature).value) == HexDecode(accounts[t.from].publicKey)
  {
    hide HexDecode, Decimal;
  }

  /** The key recovered from the signature over sender, recipient, amount and time, joined by underscores. */
  predicate SignedBy(ecdsa: Ecdsa, t: Transaction, key: seq<Byte>, signature: seq<Byte>) {
    ecdsa.recover(t.from + "_" + t.to + "_" + Decimal(t.amount) + "_" + Decimal(t.timestamp), signature) == Some(key)
  }

  /** In particular, a signature is admitted on an account exactly when the account's own key made it. */
  lemma OwnersSignatureIsAdmitted(ecdsa: Ecdsa, accounts: map<string, Account>, t: Transaction,
                                  key: seq<Byte>, signature: seq<Byte>)
    requires t.from in accounts && accounts[t.from].publicKey == HexEncode(key) && t.signature == HexEncode(signature)
    ensures Admissible(ecdsa, accounts, t) <==> SignedBy(ecdsa, t, key, signature)
  {
    hide HexDecode, HexEncode, Decimal;
    assert HexDecode(HexEncode(key)) == Some(key) && HexDecode(HexEncode(signature)) == Some(signature);
    AdmittedIff(ecdsa, accounts, t);
  }

  /** A signature taken from one admitted transaction and put on another transfer of the same sender is
      turned away, as long as no signature recovers to one key for both messages. */
  lemma SignatureCoversTransfer(ecdsa: Ecdsa, accounts: map<string, Account>, t: Transaction, u: Transaction)
    requires Admissible(ecdsa, accounts, t) && u.from == t.from && u.signature == t.signature
    requires forall s |
               ecdsa.recover(SigningMessage(t), s).Some? &&
               ecdsa.recover(SigningMessage(t), s) == ecdsa.recover(SigningMessage(u), s) ::
               SigningMessage(t) == SigningMessage(u)
    ensures Admissible(ecdsa, accounts, u) <==> SameTransfer(t, u)
  {
    hide HexDecode;
    if Admissible(ecdsa, accounts, u) {
      MessageDeterminesTransferIff(t, u);
    }
  }

  /** Admission never looks at the recipient: taking every other account away changes nothing. So a sender can
      have either of two different transfers admitted that share a preimage, whoever the shorter recipient is. */
  lemma AmbiguousTransfersAdmitted(ecdsa: Ecdsa, accounts: map<string, Account>, from: string, to: string, time: Word,
                                   id: TxId, signature: string, signature': string)
    requires from in accounts
    ensures var t := Transaction(id, from, to + "1", 1, time, signature);
            var u := Transaction(id, from, to, 11, time, signature');
            && HashPreimage(t) == HashPreimage(u) && !SameTransfer(t, u)
            && (Admissible(ecdsa, accounts, t) <==> Admissible(ecdsa, map[from := accounts[from]], t))
            && (Admissible(ecdsa, accounts, u) <==> Admissible(ecdsa, map[from := accounts[from]], u))
  {
    hide HexDecode;
    PreimageIsAmbiguous(from, to, time);
  }

  function FindNode(nodes: seq<NodeConfig>, index: int): (r: Option<NodeConfig>)
    ensures r.Some? ==> r.value in nodes && r.value.index == index
    ensures r.None? <==> forall c :: c in nodes ==> c.index != index
  {
    if nodes == [] then None
    else if nodes[0].index == index then Some(nodes[0])
    else FindNode(nodes[1..], index)
  }

  predicate FirstAt(nodes: seq<NodeConfig>, i: nat, index: int) {
    i < |nodes| && nodes[i].index == index && forall j :: 0 <= j < i ==> nodes[j].index != index
  }

  lemma FirstInRest(nodes: seq<NodeConfig>, i: nat, index: int)
    requires nodes != [] && nodes[0].index != index
    ensures FirstAt(nodes[1..], i, index) <==> FirstAt(nodes, i + 1, index)
  {
    assert forall j :: 0 <= j < |nodes| - 1 ==> nodes[1..][j] == nodes[j + 1];
    assert forall j :: 0 < j < |nodes| ==> nodes[j] == nodes[1..][j - 1];
  }

  /** Of several nodes with one index the first is found. */
  lemma {:induction false} FindNodeIsFirst(nodes: seq<NodeConfig>, index: int)
    ensures forall i: nat :: FirstAt(nodes, i, index) ==> FindNode(nodes, index) == Some(nodes[i])
    ensures FindNode(nodes, index).Some? ==> exists i: nat :: FirstAt(nodes, i, index)
  {
    if nodes != [] && nodes[0].index == index {
      assert FirstAt(nodes, 0, index);
    } else if nodes != [] {
      var rest := nodes[1..];
      FindNodeIsFirst(rest, index);
      forall i: nat | FirstAt(nodes, i, index)
        ensures FindNode(nodes, index) == Some(nodes[i])
      {
        FirstInRest(nodes, i - 1, index);
      }
      if FindNode(nodes, index).Some? {
        var i: nat :| FirstAt(rest, i, index);
        FirstInRest(nodes, i, index);
      }
    }
  }

  /** The signature text passes the check made for a block at this height: the node that is looked up
      exists and verification returns without error, whichever boolean it returns. */
  predicate Acceptable(env: Env, height: Word, signature: string) {
    var c := FindNode(env.nodes, height % 3 + 1);
    c.Some? && VerifySignature(env.ecdsa, "0x04" + c.value.publicKey, BlockKey(height), signature).Some?
  }

  /** The node whose configured key a block of this height is checked with. */
  function CheckedNode(height: nat): int {
    if height % 3 == 0 then 1 else if height % 3 == 1 then 2 else 3
  }

  /** The configured key is a point of the curve, and the signature text recovers to some key, be it this one or
      another, as a signature of the key text of the height. */
  predicate Recovers(ecdsa: Ecdsa, publicKey: string, height: nat, signature: string) {
    match (HexDecode("0x04" + publicKey), HexDecode(signature))
    case (Some(key), Some(bytes)) => ecdsa.isKey(key) && ecdsa.recover("block_" + Decimal(height), bytes).Some?
    case _ => false
  }

  /** What the check of a signature text comes to: the first node configured under 1, 2 or 3, as the height demands,
      has a key, and the text recovers to some key. */
  ghost predicate Checks(env: Env, height: nat, signature: string) {
    exists i: nat :: FirstAt(env.nodes, i, CheckedNode(height)) &&
                     Recovers(env.ecdsa, env.nodes[i].publicKey, height, signature)
  }

  lemma AcceptableIff(env: Env, height: Word, signature: string)
    ensures Acceptable(env, height, signature) <==> Checks(env, height, signature)
  {
    hide HexDecode, Decimal, FindNode, FirstAt;
    FindNodeIsFirst(env.nodes, CheckedNode(height));
  }

  /** The text is that of a point of the curve. */
  predicate OnCurve(ecdsa: Ecdsa, publicKey: string) {
    HexDecode("0x04" + publicKey).Some? && ecdsa.isKey(HexDecode("0x04" + publicKey).value)
  }

  /** With three nodes configured, a signature passes exactly if it recovers to some key and the key of node 1, 2 or 3,
      for a height that leaves 0, 1 or 2 modulo 3, is on the curve. */
  lemma ThreeNodesCheck(env: Env, key1: string, key2: string, key3: string, height: Word, signature: seq<Byte>)
    requires env.nodes == [NodeConfig(key1, 1), NodeConfig(key2, 2), NodeConfig(key3, 3)]
    ensures Checks(env, height, HexEncode(signature)) <==>
            && OnCurve(env.ecdsa, if height % 3 == 0 then key1 else if height % 3 == 1 then key2 else key3)
            && env.ecdsa.recover("block_" + Decimal(height), signature).Some?
  {
    hide HexDecode, HexEncode, Decimal;
    assert HexDecode(HexEncode(signature)) == Some(signature);
    var i: nat := CheckedNode(height) - 1;
    assert FirstAt(env.nodes, i, CheckedNode(height));
  }

  lemma EmptySignatureRejected(env: Env, height: Word)
    ensures !Acceptable(env, height, "")
  {
    assert HexDecode("") == None;
  }

  /** The node whose key a block is checked against may be one whose turn it was at heights up to 2, and
      never is from height 3 on: there the dropped boolean is what lets honest blocks through. */
  lemma CheckedKeyIsAProposersIff(height: Word)
    ensures (exists i: Word :: 1 <= i <= 3 && Eligible(i, height) && i == CheckedNode(height)) <==> height <= 2
  {
    if height == 0 {
      assert Eligible(1, 0);
    } else {
      TurnSchedule(height);
      assert height == 1 ==> Eligible(2, 1);
      assert height == 2 ==> Eligible(3, 2);
    }
  }

  // ---------- Handling a block ----------

  /** The body of HandleNewBlock. The transactions are applied before the index is checked. */
  function HandleNewBlock(env: Env, n: Node, b: Block, remote: Pool): (Node, Option<Failure>) {
    var key := BlockKey(b.index);
    if b.index == 0 then (n, None)
    else if key in n.blocks && n.blocks[key].header.signature != "" then (n, Some(BlockExists))
    else
      var c := FindNode(env.nodes, b.index % 3 + 1);
      if c.None? then (n, Some(NoSuchNode))
      else if VerifySignature(env.ecdsa, "0x04" + c.value.publicKey, key, b.header.signature).None?
      then (n, Some(BadSignature))
      else
        var f := FollowerLoop(Follower(n.ledger, n.pool, None), b.txns, remote);
        var n1 := n.(ledger := f.ledger, pool := f.pool);
        if f.fault.Some? then (n1, Some(LedgerFault(f.fault.value))) else SaveBlock(n1, b)
  }

  /** What becomes of any block at all. A genesis block, a height that is stored and signed, or a signature that fails
      the check changes nothing. Otherwise the transactions are applied, and the block is stored exactly if they all
      go through and it is the next one. */
  lemma HandledIff(env: Env, n: Node, b: Block, remote: Pool)
    requires Contiguous(n) && n.current.index < TWO_64 - 1
    ensures var (n', failure) := HandleNewBlock(env, n, b, remote);
            var f := FollowerLoop(Follower(n.ledger, n.pool, None), b.txns, remote);
            if b.index == 0 then n' == n && failure == None
            else if (b.index <= n.current.index && n.blocks[BlockKey(b.index)].header.signature != "") ||
                    !Checks(env, b.index, b.header.signature)
            then n' == n && failure.Some?
            else
              && n'.ledger == f.ledger && n'.pool == f.pool
              && if f.fault == None && b.index == n.current.index + 1
                 then failure == None && Appended(n, n', b)
                 else failure.Some? && SameRecords(n, n')
  {
    hide FollowerLoop, VerifySignature, FindNode, BlockKey, SaveBlock, Checks;
    AcceptableIff(env, b.index, b.header.signature);
    if b.index > n.current.index {
      NotStored(n, b.index);
    }
    if b.index > 0 {
      var f := FollowerLoop(Follower(n.ledger, n.pool, None), b.txns, remote);
      SaveBlockOnlyNext(n.(ledger := f.ledger, pool := f.pool), b);
    }
  }

  /** With three nodes configured: the next block, its lookups answered, is stored exactly if its signature recovers to
      some key and the key of node 1, 2 or 3, by the height, is on the curve; otherwise it changes nothing. */
  lemma NextBlockStoredIff(env: Env, key1: string, key2: string, key3: string, n: Node, b: Block, remote: Pool,
                           signature: seq<Byte>)
    requires env.nodes == [NodeConfig(key1, 1), NodeConfig(key2, 2), NodeConfig(key3, 3)]
    requires Contiguous(n) && n.current.index < TWO_64 - 1 && b.index == n.current.index + 1
    requires FollowerLoop(Follower(n.ledger, n.pool, None), b.txns, remote).fault == None
    requires b.header.signature == HexEncode(signature)
    ensures var (n', failure) := HandleNewBlock(env, n, b, remote);
            if OnCurve(env.ecdsa, if b.index % 3 == 0 then key1 else if b.index % 3 == 1 then key2 else key3) &&
               env.ecdsa.recover("block_" + Decimal(b.index), signature).Some?
            then failure == None && Appended(n, n', b)
            else failure.Some? && n' == n
  {
    hide FollowerLoop, HandleNewBlock, Contiguous, Checks, HexDecode, HexEncode, Decimal, BlockKey, OnCurve;
    ThreeNodesCheck(env, key1, key2, key3, b.index, signature);
    HandledIff(env, n, b, remote);
  }

  /** A block at or below CURRENT changes nothing at all. */
  lemma OldBlockIsIgnored(env: Env, n: Node, b: Block, remote: Pool)
    requires Contiguous(n) && AllSigned(n) && b.index <= n.current.index
    ensures HandleNewBlock(env, n, b, remote).0 == n
  {
    var key := BlockKey(b.index);
    assert key in n.blocks;
    BlockKeysNeverCollide(n.blocks[key].index, b.index);
  }

  /** A block too far ahead has its transactions applied and is then turned away. */
  lemma EarlyBlockAppliedNotStored(env: Env, n: Node, b: Block, remote: Pool)
    requires Contiguous(n) && n.current.index + 1 < b.index
    ensures var (n', failure) := HandleNewBlock(env, n, b, remote);
            && n'.blocks == n.blocks && n'.current == n.current && n'.last == n.last && failure.Some?
            && (Acceptable(env, b.index, b.header.signature) ==>
                  n'.ledger == FollowerLoop(Follower(n.ledger, n.pool, None), b.txns, remote).ledger)
  {
    hide FollowerLoop, VerifySignature, FindNode, BlockKey, Contiguous;
    NotStored(n, b.index);
  }

  lemma NotStored(n: Node, height: Word)
    requires Contiguous(n) && height > n.current.index
    ensures BlockKey(height) !in n.blocks
  {
  }

  /** A proposal leaves the chain alone or puts one block on top; that block names its place, is
      eligible, and links to the block below it. */
  lemma ProposeShape(n: Node, self: Word, order: seq<Transaction>, signature: Option<string>, time: Word)
    requires n.current.index < TWO_64 - 1
    ensures var (n', p) := Propose(n, self, order, signature, time);
            match p
            case Declined(_) => SameRecords(n, n')
            case Proposed(b) =>
              && Appended(n, n', b) && CanPropose(n, self) && Eligible(self, b.index)
              && b == NextBlock(n.current, b.header.signature, time, b.txns) && signature == Some(b.header.signature)
              && n'.ledger == ProposerLoop(StartProposer(n.ledger, n.pool), order).ledger
              && b.txns == ProposerLoop(StartProposer(n.ledger, n.pool), order).ids
              && ProposerLoop(StartProposer(n.ledger, n.pool), order).fault == None
    ensures var n' := Propose(n, self, order, signature, time).0;
            var p := ProposerLoop(StartProposer(n.ledger, n.pool), order);
            n' == n || (n'.ledger == p.ledger && n'.pool == p.pool)
  {
    if CanPropose(n, self) && signature.Some? {
      var p := ProposerLoop(StartProposer(n.ledger, n.pool), order);
      SaveBlockOnlyNext(n.(ledger := p.ledger, pool := p.pool), NextBlock(n.current, signature.value, time, p.ids));
    }
  }

  /** The turn rule spelled out for the three nodes: the two low heights admit two of them. */
  predicate TurnOf(self: Word, height: nat) {
    if height == 1 then self == 1 || self == 2
    else if height == 2 then self == 2 || self == 3
    else self == (height - 1) % 3 + 1
  }

  /** A node declines before it does anything exactly while its LAST is ahead of its CURRENT or it is not its turn. */
  lemma DeclinesIff(n: Node, self: Word, order: seq<Transaction>, signature: Option<string>, time: Word)
    requires 1 <= self <= 3 && n.current.index < TWO_64 - 1
    ensures var (n', p) := Propose(n, self, order, signature, time);
            && (p == Declined(NotEligible) <==>
                  n.last.index > n.current.index || !TurnOf(self, n.current.index + 1))
            && (p == Declined(NotEligible) ==> n' == n)
            && (p.Proposed? ==> p.block.index > n.last.index && p.block.index == n.current.index + 1)
  {
    hide ProposerLoop, BlockKey, Eligible;
    TurnSchedule(n.current.index + 1);
    ProposeShape(n, self, order, signature, time);
  }

  /** The block that comes out, field by field. */
  lemma ProposedBlock(n: Node, self: Word, order: seq<Transaction>, signature: Option<string>, time: Word)
    requires n.current.index < TWO_64 - 1 && Propose(n, self, order, signature, time).1.Proposed?
    ensures var b, current := Propose(n, self, order, signature, time).1.block, n.current.header;
            && b.index == n.current.index + 1
            && b.header.version == current.version && b.header.previousBlockHeader == current.merkleRoot
            && b.header.merkleRoot == "block_" + Decimal(n.current.index + 1)
            && b.header.rootAccount == b.header.rootTransaction == ""
            && b.header.time == time && signature == Some(b.header.signature)
            && b.txns == ProposerLoop(StartProposer(n.ledger, n.pool), order).ids
  {
    hide ProposerLoop, Eligible, Decimal;
    ProposeShape(n, self, order, signature, time);
  }

  /** When it is the node's turn and neither the mempool nor the signature fails, a block comes out. */
  lemma ProposeSucceeds(n: Node, self: Word, order: seq<Transaction>, signature: Option<string>, time: Word)
    requires n.current.index < TWO_64 - 1 && signature.Some?
    requires ProposerLoop(StartProposer(n.ledger, n.pool), order).fault == None
    ensures if CanPropose(n, self) then Propose(n, self, order, signature, time).1.Proposed?
            else Propose(n, self, order, signature, time).0 == n
  {
    hide ProposerLoop, BlockKey, Eligible;
  }

  /** An acceptable block at the next height whose transactions all go through is stored. */
  lemma HandleSucceeds(env: Env, n: Node, b: Block, remote: Pool)
    requires Contiguous(n) && n.current.index < TWO_64 - 1 && b.index == n.current.index + 1
    requires Acceptable(env, b.index, b.header.signature)
    requires FollowerLoop(Follower(n.ledger, n.pool, None), b.txns, remote).fault == None
    ensures var (n', failure) := HandleNewBlock(env, n, b, remote);
            && failure == None && Appended(n, n', b)
            && n'.ledger == FollowerLoop(Follower(n.ledger, n.pool, None), b.txns, remote).ledger
  {
    hide FollowerLoop, VerifySignature, FindNode;
    NotStored(n, b.index);
  }

  /** Handling a block leaves the chain alone or puts exactly that block on top. */
  lemma HandleShape(env: Env, n: Node, b: Block, remote: Pool)
    requires n.current.index < TWO_64 - 1
    ensures var n' := HandleNewBlock(env, n, b, remote).0;
            SameRecords(n, n') || (Appended(n, n', b) && b.header.signature != "")
    ensures var n' := HandleNewBlock(env, n, b, remote).0;
            n' == n || (n'.ledger == FollowerLoop(Follower(n.ledger, n.pool, None), b.txns, remote).ledger &&
                        n'.pool == FollowerLoop(Follower(n.ledger, n.pool, None), b.txns, remote).pool)
  {
    hide FollowerLoop, FindNode, BlockKey, SaveBlock;
    if b.header.signature == "" {
      assert HexDecode("") == None;
    } else if b.index > 0 {
      var f := FollowerLoop(Follower(n.ledger, n.pool, None), b.txns, remote);
      SaveBlockOnlyNext(n.(ledger := f.ledger, pool := f.pool), b);
    }
  }

  // ---------- Start and restart ----------

  /** What LevelDB keeps. A root hash stands for the trie it commits to. `log` is the history variable
      of the stored ledger. */
  datatype Store = Store(
    root: Option<map<string, Block>>, txRoot: Option<map<TxId, Transaction>>, accRoot: Option<map<string, Account>>,
    current: Option<Block>, last: Option<Block>, log: seq<Transaction>)

  const EMPTY_STORE: Store := Store(None, None, None, None, None, [])

  function Genesis(time: Word): Block {
    Block(BlockHeader(1, "", BlockKey(0), "", "", time, ""), 0, [])
  }

  const TEST_KEYS: seq<string> := [
    "0x048f1273da4d7c042caa74c4fe50443831875128a8ff7817c40f1211cdf6e65e63e5ce5139da1983946cb15a054d951559523d7121ae9d0314f5e187cc757b36e2",
    "0x04127bae1dc0022eabf3fc16447d501fa45906d5127d116de654b6e93b0606ee9430552b8f458d905459396d581b9201b7745edf1d2f47a84aed5e063cc196942b",
    "0x04d53415bd1e6941e971c2eb1f9a4e964dd8cb043a5865f023f004915aef78d462d61072e9448ea334070cc26460c471a6c6ca9bc82461c02ddea5ca2bf7c170f6"]

  const TEST_BALANCE: Word := 1000

  /** A test account is created only when its address has no account yet. */
  function EnsureAccount(accounts: map<string, Account>, address: string, publicKey: string): map<string, Account> {
    if address in accounts then accounts else SaveAccount(accounts, Account(address, TEST_BALANCE, publicKey, 0))
  }

  /** InitializeTestAccounts; `addressOf` derives an address from a public key. */
  function EnsureTestAccounts(accounts: map<string, Account>, addressOf: string -> string): map<string, Account> {
    var a1 := EnsureAccount(accounts, addressOf(TEST_KEYS[0]), TEST_KEYS[0]);
    var a2 := EnsureAccount(a1, addressOf(TEST_KEYS[1]), TEST_KEYS[1]);
    EnsureAccount(a2, addressOf(TEST_KEYS[2]), TEST_KEYS[2])
  }

  function InitialAccounts(addressOf: string -> string): map<string, Account> {
    EnsureTestAccounts(map[], addressOf)
  }

  predicate StoreOk(store: Store) {
    store.root.Some? ==> store.current.Some? && store.last.Some?
  }

  /** Init on what the store holds. */
  function Boot(store: Store, time: Word, addressOf: string -> string): Node
    requires StoreOk(store)
  {
    var g := Genesis(time);
    var accounts := EnsureTestAccounts(if store.accRoot.Some? then store.accRoot.value else map[], addressOf);
    var ledger := Ledger(accounts, if store.txRoot.Some? then store.txRoot.value else map[], store.log);
    if store.root.None? then Node(map[BlockKey(0) := g], g, g, ledger, map[])
    else Node(store.root.value, store.current.value, store.last.value, ledger, map[])
  }

  /** The store as it stands between two completed operations of a running node. An absent root
      stands for a trie that was never written. */
  ghost predicate Persists(store: Store, n: Node) {
    && store.root == Some(n.blocks) && store.current == Some(n.current) && store.last == Some(n.last)
    && (if store.txRoot.Some? then store.txRoot.value == n.ledger.txs else n.ledger.txs == map[])
    && store.accRoot == Some(n.ledger.accounts)
    && store.log == n.ledger.log
  }

  /** Init again: same chain, ledger, CURRENT and LAST, whatever the clock says; only the mempool is lost,
      and no existing test account is reset. */
  lemma RestartIdentity(store: Store, n: Node, time: Word, addressOf: string -> string)
    requires Persists(store, n)
    requires forall a :: a in InitialAccounts(addressOf) ==> a in n.ledger.accounts
    ensures Boot(store, time, addressOf) == n.(pool := map[])
  {
    var a1 := EnsureAccount(map[], addressOf(TEST_KEYS[0]), TEST_KEYS[0]);
    var a2 := EnsureAccount(a1, addressOf(TEST_KEYS[1]), TEST_KEYS[1]);
    var a3 := EnsureAccount(a2, addressOf(TEST_KEYS[2]), TEST_KEYS[2]);
    assert a3 == InitialAccounts(addressOf);
    assert addressOf(TEST_KEYS[0]) in a3 && addressOf(TEST_KEYS[1]) in a3 && addressOf(TEST_KEYS[2]) in a3;
  }

  /** Each of the three test keys gets an account of 1000 under its address, unless there is one already; two keys
      with one address share the account of the first. */
  lemma TestAccounts(accounts: map<string, Account>, addressOf: string -> string)
    ensures var r := EnsureTestAccounts(accounts, addressOf);
            var a1, a2, a3 := addressOf(TEST_KEYS[0]), addressOf(TEST_KEYS[1]), addressOf(TEST_KEYS[2]);
            && r.Keys == accounts.Keys + {a1, a2, a3}
            && (forall a :: a in accounts ==> r[a] == accounts[a])
            && (a1 !in accounts ==> r[a1] == Account(a1, 1000, TEST_KEYS[0], 0))
            && (a2 !in accounts && a2 != a1 ==> r[a2] == Account(a2, 1000, TEST_KEYS[1], 0))
            && (a3 !in accounts && a3 != a1 && a3 != a2 ==> r[a3] == Account(a3, 1000, TEST_KEYS[2], 0))
  {
    hide TEST_KEYS;
  }

  /** The first start in full: the genesis block carries the clock, so that nodes started at different times do not
      share it, and there are just the test accounts, each under the key that its address comes from. */
  lemma FirstStart(time: Word, addressOf: string -> string)
    ensures var n := Boot(EMPTY_STORE, time, addressOf);
            && n.current == n.last == Block(BlockHeader(1, "", "block_0", "", "", time, ""), 0, [])
            && n.blocks == map["block_0" := n.current]
            && n.ledger.txs == map[] && n.ledger.log == [] && n.pool == map[]
    ensures var r := Boot(EMPTY_STORE, time, addressOf).ledger.accounts;
            var a1, a2, a3 := addressOf(TEST_KEYS[0]), addressOf(TEST_KEYS[1]), addressOf(TEST_KEYS[2]);
            && r.Keys == {a1, a2, a3}
            && r[a1] == Account(a1, 1000, TEST_KEYS[0], 0)
            && (a2 != a1 ==> r[a2] == Account(a2, 1000, TEST_KEYS[1], 0))
            && (a3 != a1 && a3 != a2 ==> r[a3] == Account(a3, 1000, TEST_KEYS[2], 0))
    ensures forall time': Word :: time' != time ==>
              Boot(EMPTY_STORE, time', addressOf).current != Boot(EMPTY_STORE, time, addressOf).current
  {
    hide EnsureTestAccounts, TEST_KEYS;
    assert BlockKey(0) == "block_0";
    TestAccounts(map[], addressOf);
  }

  /** A test account can spend from the first start on: a transfer of its own is admitted exactly when its key
      signed. */
  lemma TestAccountSpends(ecdsa: Ecdsa, time: Word, addressOf: string -> string, k: nat, t: Transaction,
                          signature: seq<Byte>)
    requires k < 3 && t.from == addressOf(TEST_KEYS[k]) && t.signature == HexEncode(signature)
    requires forall j :: 0 <= j < k ==> addressOf(TEST_KEYS[j]) != t.from
    ensures Admissible(ecdsa, Boot(EMPTY_STORE, time, addressOf).ledger.accounts, t) <==>
            HexDecode(TEST_KEYS[k]).Some? && SignedBy(ecdsa, t, HexDecode(TEST_KEYS[k]).value, signature)
  {
    hide HexDecode, HexEncode, Decimal, Boot, TEST_KEYS;
    assert HexDecode(HexEncode(signature)) == Some(signature);
    FirstStart(time, addressOf);
    AdmittedIff(ecdsa, Boot(EMPTY_STORE, time, addressOf).ledger.accounts, t);
  }

  /** The first start: a chain of one unsigned block, the test accounts, nothing stored. */
  lemma FirstBoot(time: Word, addressOf: string -> string)
    ensures var n := Boot(EMPTY_STORE, time, addressOf);
            && Contiguous(n) && AllSigned(n) && n.current == n.last == Genesis(time) && n.pool == map[]
            && n.ledger == EmptyLedger(InitialAccounts(addressOf))
            && WellKeyed(n.ledger.accounts) && Sound(InitialAccounts(addressOf), n.ledger)
            && Supply(n.ledger.accounts) <= 3 * TEST_BALANCE
  {
    hide Sound, Settle, BlockKey, Supply;
    EmptyIsSound(InitialAccounts(addressOf));
    EmptySupply();
    FirstBootChain(time, addressOf);
    var a1 := EnsureAccount(map[], addressOf(TEST_KEYS[0]), TEST_KEYS[0]);
    var a2 := EnsureAccount(a1, addressOf(TEST_KEYS[1]), TEST_KEYS[1]);
    EnsureSupply(map[], addressOf(TEST_KEYS[0]), TEST_KEYS[0]);
    EnsureSupply(a1, addressOf(TEST_KEYS[1]), TEST_KEYS[1]);
    EnsureSupply(a2, addressOf(TEST_KEYS[2]), TEST_KEYS[2]);
  }

  lemma EmptySupply()
    ensures Supply(map[]) == 0
  {
  }

  lemma FirstBootChain(time: Word, addressOf: string -> string)
    ensures var n := Boot(EMPTY_STORE, time, addressOf); Contiguous(n) && AllSigned(n)
  {
    hide EnsureTestAccounts;
  }

  lemma EnsureSupply(accounts: map<string, Account>, address: string, publicKey: string)
    requires WellKeyed(accounts)
    ensures WellKeyed(EnsureAccount(accounts, address, publicKey))
    ensures Supply(EnsureAccount(accounts, address, publicKey)) <= Supply(accounts) + TEST_BALANCE
  {
    if address !in accounts {
      FiniteSums.SumInsert(accounts, address, Account(address, TEST_BALANCE, publicKey, 0), BalanceOf());
    }
  }

}
