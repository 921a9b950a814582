// Catching up: rounds of requesting the next block, serving it and handling it.

module CatchUp {
  import opened Options
  import opened Words
  import opened Encoding
  import opened Transactions
  import opened Ledgers
  import opened Processing
  import opened Chain
  import opened Protocol
  import opened Agreement
  import opened Replication

  lemma {:induction false} ExecuteAppend(net: Net, s: System, a: seq<Step>, b: seq<Step>)
    requires Legal(net, s, a) && Legal(net, Execute(net, s, a), b)
    ensures Legal(net, s, a + b) && Execute(net, s, a + b) == Execute(net, Execute(net, s, a), b)
    decreases |a|
  {
    hide Enabled, Do;
    if a == [] {
      assert a + b == b;
    } else {
      ExecuteAppend(net, Do(net, s, a[0]), a[1..], b);
      assert (a + b)[0] == a[0] && (a + b)[1..] == a[1..] + b;
    }
  }

  lemma ExecuteOne(net: Net, s: System, step: Step)
    requires Enabled(net, s, step)
    ensures Legal(net, s, [step]) && Execute(net, s, [step]) == Do(net, s, step)
  {
    hide Enabled, Do;
    assert Legal(net, Do(net, s, step), [step][1..]);
  }

  lemma ExecuteThree(net: Net, s: System, a: Step, b: Step, c: Step)
    requires Enabled(net, s, a) && Enabled(net, Do(net, s, a), b) && Enabled(net, Do(net, Do(net, s, a), b), c)
    ensures Legal(net, s, [a, b, c]) && Execute(net, s, [a, b, c]) == Do(net, Do(net, Do(net, s, a), b), c)
  {
    hide Enabled, Do;
    ExecuteOne(net, s, a);
    ExecuteOne(net, Do(net, s, a), b);
    ExecuteOne(net, Do(net, Do(net, s, a), b), c);
    ExecuteAppend(net, s, [a], [b]);
    ExecuteAppend(net, s, [a] + [b], [c]);
    assert [a] + [b] + [c] == [a, b, c];
  }

  /** One round: ask for CURRENT + 1, let node `j` serve it, handle the answer. */
  ghost function Round(s: System, i: Word, j: Word, remote: Pool): seq<Step>
    requires i in s.nodes && j in s.nodes
    requires s.nodes[i].current.index + 1 < TWO_64 && BlockKey(s.nodes[i].current.index + 1) in s.nodes[j].blocks
  {
    var key := BlockKey(s.nodes[i].current.index + 1);
    [RequestNext(i, j), ServeBlock(j, i, key), HandleBlock(i, s.nodes[j].blocks[key], remote)]
  }

  /** The lookups made while handling this block will all be answered. */
  ghost predicate Covers(net: Net, remote: Pool, b: Block) {
    RemoteOk(net, remote) && forall k :: k in b.txns ==> k in remote
  }

  // ---------- Where the answers come from ----------

  /** The lookups that a transaction trie can answer. */
  function TrieAnswers(l: Ledger): Pool {
    map k | k in (set id | id in l.txs :: HexEncode(id)) :: l.txs[HexDecode(k).value]
  }

  /** What the tries of the three nodes can answer between them. */
  function Tries(s: System): Pool {
    if s.nodes.Keys == {1, 2, 3}
    then TrieAnswers(s.nodes[1].ledger) + TrieAnswers(s.nodes[2].ledger) + TrieAnswers(s.nodes[3].ledger)
    else map[]
  }

  lemma TrieAnswersOk(net: Net, l: Ledger)
    requires LedgerInv(net, l)
    ensures RemoteOk(net, TrieAnswers(l))
  {
    hide HexEncode, InitialAccounts, Settle, Applies;
    forall k | k in TrieAnswers(l)
      ensures HexDecode(k) == Some(TrieAnswers(l)[k].id) && Issued(net, TrieAnswers(l)[k])
    {
      var id :| id in l.txs && HexEncode(id) == k;
      assert HexDecode(HexEncode(id)) == Some(id);
    }
  }

  lemma TriesOk(net: Net, s: System)
    requires Inv(net, s)
    ensures RemoteOk(net, Tries(s))
  {
    hide NodeInv, WellFormed, HeldByCreator, MessageOk, LedgerInv, HexDecode, TrieAnswers, Issued;
    forall i | i in s.nodes
      ensures RemoteOk(net, TrieAnswers(s.nodes[i].ledger))
    {
      LedgerAndPool(net, Genuine(s), s.nodes[i]);
      TrieAnswersOk(net, s.nodes[i].ledger);
    }
    assert 1 in s.nodes && 2 in s.nodes && 3 in s.nodes;
  }

  lemma TrieCovers(net: Net, l: Ledger, ids: seq<string>)
    requires Lists(net, ids) && StoresListed(l, ids)
    ensures forall k :: k in ids ==> k in TrieAnswers(l)
  {
    hide InitialAccounts;
    forall k | k in ids
      ensures k in TrieAnswers(l)
    {
      assert HexDecode(HexEncode(net.catalog[k].id)) == Some(net.catalog[k].id);
    }
  }

  /** Every transaction that a created block lists is in the trie of some node, so the nodes can answer every lookup. */
  lemma TriesCover(net: Net, s: System, b: Block)
    requires Inv(net, s) && b in s.created
    ensures Covers(net, Tries(s), b)
  {
    hide NodeInv, MessageOk, HexDecode, TrieAnswers, RemoteOk, Eligible, BlockKey, StoresListed, Acceptable, Lists;
    TriesOk(net, s);
    assert WellFormed(net, b);
    var i :| i in s.nodes && Eligible(i, b.index) && Holds(s.nodes[i], b) && StoresListed(s.nodes[i].ledger, b.txns);
    TrieCovers(net, s.nodes[i].ledger, b.txns);
    assert i == 1 || i == 2 || i == 3;
  }

  /** Nothing but node `i` differs, and no message is lost. */
  ghost predicate OnlyNode(s: System, s': System, i: Word) {
    && s'.nodes.Keys == s.nodes.Keys && s'.created == s.created && s'.geneses == s.geneses && s'.readers == s.readers
    && s.soup <= s'.soup
    && forall j :: j in s.nodes && j != i ==> s'.nodes[j] == s.nodes[j]
  }

  predicate CopiedAt(n: Node, peer: Node, h: nat) {
    BothHold(n, peer, h) && BlockAt(n, h) == BlockAt(peer, h)
  }

  /** What one round does: exactly the peer's next block goes on top; LAST and everything below stay. */
  ghost predicate Advanced(net: Net, s: System, s': System, i: Word, j: Word)
    requires i in s.nodes && j in s.nodes && s.nodes.Keys == s'.nodes.Keys
  {
    var (n, n') := (s.nodes[i], s'.nodes[i]);
    && n'.current.index == n.current.index + 1 && n'.last == n.last
    && CopiedAt(n', s.nodes[j], n.current.index + 1)
    && n'.ledger == ReplayIds(net.catalog, n.ledger, n'.current.txns)
    && OnlyNode(s, s', i) && KeepsBlocks(n, n') && Inv(net, s')
    && (Replicated(net, n) ==> Replicated(net, n'))
  }

  /** The answer to the request is there to be handled, and will be stored. */
  lemma RoundIsLegal(net: Net, s: System, i: Word, j: Word, remote: Pool)
    requires Inv(net, s) && Peers(s, i, j)
    requires s.nodes[i].current.index < s.nodes[i].last.index && s.nodes[i].current.index < s.nodes[j].current.index
    requires BlockKey(s.nodes[i].current.index + 1) in s.nodes[j].blocks
    requires RemoteOk(net, remote)
    ensures Legal(net, s, Round(s, i, j, remote))
    ensures var key, s' := BlockKey(s.nodes[i].current.index + 1), Execute(net, s, Round(s, i, j, remote));
            var b := s.nodes[j].blocks[key];
            var soup := s.soup + {BlockRequest(i, j, key)} + {BlockResponse(i, b)};
            s' == Put(s, i, HandleNewBlock(net.env, s.nodes[i], b, remote).0).(soup := soup)
  {
    hide NodeInv, WellFormed, HeldByCreator, MessageOk, HandleNewBlock, BlockKey, RemoteOk, Legal, Execute, IsGenesis;
    var steps := Round(s, i, j, remote);
    var s1 := Do(net, s, steps[0]);
    var s2 := Do(net, s1, steps[1]);
    ExecuteThree(net, s, steps[0], steps[1], steps[2]);
  }

  /** The next block of a chain that another node holds. */
  lemma NextIsStored(net: Net, s: System, i: Word, b: Block, remote: Pool)
    requires Inv(net, s) && i in s.nodes && b in s.created && b.index == s.nodes[i].current.index + 1 &&
             Covers(net, remote, b)
    ensures var n, n' := s.nodes[i], HandleNewBlock(net.env, s.nodes[i], b, remote).0;
            && Appended(n, n', b) && KeepsBlocks(n, n') && n'.ledger == ReplayIds(net.catalog, n.ledger, b.txns)
            && (Replicated(net, n) ==> Replicated(net, n'))
  {
    hide NodeInv, HeldByCreator, MessageOk, HandleNewBlock, BlockKey, RemoteOk, Replicated, KeepsBlocks, Lists;
    hide Acceptable, Answered, ReplayIds;
    var n := s.nodes[i];
    CoveredIsAnswered(net, n.ledger.txs, n.pool, remote, b.txns);
    HandleNextReplicates(net, Genuine(s), n, b, remote);
    AppendedGrows(net, Genuine(s), n, HandleNewBlock(net.env, n, b, remote).0, b);
  }

  lemma AdvancedBy(net: Net, s: System, s': System, i: Word, j: Word, n': Node, soup: set<Message>)
    requires i in s.nodes && j in s.nodes && s' == Put(s, i, n').(soup := soup) && s.soup <= soup && Inv(net, s')
    requires s.nodes[i].current.index < s.nodes[i].last.index &&
             BlockKey(s.nodes[i].current.index + 1) in s.nodes[j].blocks
    requires Appended(s.nodes[i], n', s.nodes[j].blocks[BlockKey(s.nodes[i].current.index + 1)]) &&
             KeepsBlocks(s.nodes[i], n')
    requires n'.ledger == ReplayIds(net.catalog, s.nodes[i].ledger, n'.current.txns)
    requires Replicated(net, s.nodes[i]) ==> Replicated(net, n')
    ensures s'.nodes.Keys == s.nodes.Keys && Advanced(net, s, s', i, j)
  {
    hide Inv, BlockKey, Replicated, KeepsBlocks, ReplayIds;
  }

  lemma RoundAdvances(net: Net, s: System, i: Word, j: Word, remote: Pool)
    requires Inv(net, s) && Peers(s, i, j)
    requires s.nodes[i].current.index < s.nodes[i].last.index && s.nodes[i].current.index < s.nodes[j].current.index
    requires BlockKey(s.nodes[i].current.index + 1) in s.nodes[j].blocks
    requires Covers(net, remote, s.nodes[j].blocks[BlockKey(s.nodes[i].current.index + 1)])
    ensures Legal(net, s, Round(s, i, j, remote))
    ensures var s' := Execute(net, s, Round(s, i, j, remote));
            s'.nodes.Keys == s.nodes.Keys && Advanced(net, s, s', i, j)
  {
    hide Inv, HandleNewBlock, BlockKey, Replicated, RemoteOk, Legal, Execute, KeepsBlocks, Round, Advanced, WellFormed;
    hide Put, ReplayIds;
    Stored(net, s, j, s.nodes[i].current.index + 1);
    var key := BlockKey(s.nodes[i].current.index + 1);
    var b := s.nodes[j].blocks[key];
    NextIsStored(net, s, i, b, remote);
    RoundIsLegal(net, s, i, j, remote);
    RunInv(net, s, Round(s, i, j, remote));
    AdvancedBy(net, s, Execute(net, s, Round(s, i, j, remote)), i, j, HandleNewBlock(net.env, s.nodes[i], b, remote).0,
               s.soup + {BlockRequest(i, j, key)} + {BlockResponse(i, b)});
  }

  ghost predicate InRounds(steps: seq<Step>)
    decreases |steps|
  {
    steps == [] ||
    (|steps| >= 3 && steps[0].RequestNext? && steps[1].ServeBlock? && steps[2].HandleBlock? && InRounds(steps[3..]))
  }

  /** Node `i` stands at its LAST with copies of `j`'s blocks, and holds what it held. */
  ghost predicate CaughtUp(net: Net, s: System, s': System, i: Word, j: Word)
    requires i in s.nodes && j in s.nodes && s.nodes.Keys == s'.nodes.Keys
  {
    var (n, n') := (s.nodes[i], s'.nodes[i]);
    && Inv(net, s') && OnlyNode(s, s', i)
    && n'.current.index == n.last.index && n'.last == n.last && KeepsBlocks(n, n')
    && (forall h: nat :: n.current.index < h <= n.last.index ==> CopiedAt(n', s.nodes[j], h))
    && (Replicated(net, n) ==> Replicated(net, n'))
  }

  lemma OneRoundMore(net: Net, s: System, s1: System, s': System, i: Word, j: Word)
    requires i in s.nodes && j in s.nodes && i != j && s.nodes.Keys == s1.nodes.Keys == s'.nodes.Keys
    requires Advanced(net, s, s1, i, j) && CaughtUp(net, s1, s', i, j)
    ensures CaughtUp(net, s, s', i, j)
  {
    hide Inv, Replicated, BlockKey;
    var c, n' := s.nodes[i].current.index, s'.nodes[i];
    assert KeepsBlocks(s.nodes[i], n');
    assert CopiedAt(n', s.nodes[j], c + 1);
  }

  /** Node `i` is at or below its LAST, node `j` holds blocks through it, and lookups for them will be answered. */
  ghost predicate CanFollow(net: Net, s: System, i: Word, j: Word, remote: Pool) {
    && i in s.nodes && j in s.nodes && s.nodes[i].current.index <= s.nodes[i].last.index <= s.nodes[j].current.index
    && forall h: nat | s.nodes[i].current.index < h <= s.nodes[i].last.index && BlockKey(h) in s.nodes[j].blocks ::
         Covers(net, remote, s.nodes[j].blocks[BlockKey(h)])
  }

  lemma FollowOn(net: Net, s: System, i: Word, j: Word, remote: Pool)
    requires Inv(net, s) && CanFollow(net, s, i, j, remote) && i != j &&
             s.nodes[i].current.index < s.nodes[i].last.index
    ensures BlockKey(s.nodes[i].current.index + 1) in s.nodes[j].blocks && Legal(net, s, Round(s, i, j, remote))
    ensures var s1 := Execute(net, s, Round(s, i, j, remote));
            && s1.nodes.Keys == s.nodes.Keys && Advanced(net, s, s1, i, j)
            && CanFollow(net, s1, i, j, remote) && Inv(net, s1)
  {
    hide Inv, Legal, Execute, Replicated, BlockKey, Covers, WellFormed, KeepsBlocks, Round;
    Stored(net, s, j, s.nodes[i].current.index + 1);
    RoundAdvances(net, s, i, j, remote);
  }

  /** A node that knows LAST = L catches up with a peer that holds blocks through L in exactly L - CURRENT
      rounds: it ends with copies of the peer's blocks, its older blocks as they were, and nothing further
      to ask for. */
  lemma {:induction false} CatchUpTerminates(net: Net, s: System, i: Word, j: Word, remote: Pool)
    returns (steps: seq<Step>)
    requires Inv(net, s) && i != j && CanFollow(net, s, i, j, remote)
    ensures Legal(net, s, steps) && InRounds(steps) && |steps| == 3 * (s.nodes[i].last.index - s.nodes[i].current.index)
    ensures Execute(net, s, steps).nodes.Keys == s.nodes.Keys && CaughtUp(net, s, Execute(net, s, steps), i, j)
    decreases s.nodes[i].last.index - s.nodes[i].current.index
  {
    hide Inv, Legal, Execute, Replicated, BlockKey, Covers, KeepsBlocks, CaughtUp;
    if s.nodes[i].current.index == s.nodes[i].last.index {
      steps := [];
      NoSteps(net, s);
      AlreadyCaughtUp(net, s, i, j);
    } else {
      FollowOn(net, s, i, j, remote);
      var round := Round(s, i, j, remote);
      var s1 := Execute(net, s, round);
      var rest := CatchUpTerminates(net, s1, i, j, remote);
      ExecuteAppend(net, s, round, rest);
      OneRoundMore(net, s, s1, Execute(net, s1, rest), i, j);
      steps := round + rest;
      assert steps[3..] == rest;
    }
  }

  lemma AlreadyCaughtUp(net: Net, s: System, i: Word, j: Word)
    requires Inv(net, s) && i in s.nodes && j in s.nodes && s.nodes[i].current.index == s.nodes[i].last.index
    ensures CaughtUp(net, s, s, i, j)
  {
    hide Inv, Replicated, BlockKey;
  }

  lemma NoSteps(net: Net, s: System)
    ensures Legal(net, s, []) && Execute(net, s, []) == s
  {
  }
}
