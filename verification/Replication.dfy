// State-machine replication: a node's ledger stays a function of its chain exactly in orderly runs.

module Replication {
  import opened Options
  import opened Words
  import opened Encoding
  import opened Transactions
  import opened Ledgers
  import opened Processing
  import opened Chain
  import opened Protocol
  import opened Agreement

  // ---------- The reference meaning of a chain ----------

  /** Executing a list of IDs: a transaction already stored, or not covered at its turn, has no effect. */
  function ReplayIds(catalog: Pool, l: Ledger, ids: seq<string>): Ledger
    decreases |ids|
  {
    if ids == [] then l
    else if ids[0] in catalog && Takes(l, catalog[ids[0]]) then ReplayIds(catalog, Apply(l, catalog[ids[0]]), ids[1..])
    else ReplayIds(catalog, l, ids[1..])
  }

  /** The ledger that blocks 1 .. k of a chain lead to. */
  function ReplayChain(net: Net, blocks: map<string, Block>, k: nat): Ledger {
    if k == 0 then EmptyLedger(A0(net))
    else if BlockKey(k) in blocks then ReplayIds(net.catalog, ReplayChain(net, blocks, k - 1), blocks[BlockKey(k)].txns)
    else ReplayChain(net, blocks, k - 1)
  }

  lemma {:induction false} ReplayChainFrame(net: Net, blocks: map<string, Block>, blocks': map<string, Block>, k: nat)
    requires forall h: nat :: 1 <= h <= k ==> BlockKey(h) in blocks && BlockKey(h) in blocks' &&
                                              blocks[BlockKey(h)].txns == blocks'[BlockKey(h)].txns
    ensures ReplayChain(net, blocks, k) == ReplayChain(net, blocks', k)
  {
    hide ReplayIds, BlockKey;
    if k > 0 {
      ReplayChainFrame(net, blocks, blocks', k - 1);
    }
  }

  // ---------- Both loops refine it ----------

  lemma {:induction false} AppliesIsReplay(catalog: Pool, l: Ledger, ts: seq<Transaction>, r: Ledger)
    requires Applies(l, ts, r)
    requires forall t :: t in ts ==> HexEncode(t.id) in catalog && catalog[HexEncode(t.id)] == t
    ensures ReplayIds(catalog, l, HexIds(ts)) == r
    decreases |ts|
  {
    hide HexEncode, Apply;
    if ts != [] {
      assert ts[0] in ts && forall t :: t in ts[1..] ==> t in ts;
      AppliesIsReplay(catalog, Apply(l, ts[0]), ts[1..], r);
      assert HexIds(ts) == [HexEncode(ts[0].id)] + HexIds(ts[1..]);
    }
  }

  /** The proposer's ledger is the meaning of the list it returns. */
  lemma ProposerIsReplay(net: Net, l: Ledger, pool: Pool, order: seq<Transaction>)
    requires PoolInv(net, pool) && IsSnapshot(pool, order)
    ensures var q := ProposerLoop(StartProposer(l, pool), order);
            q.ledger == ReplayIds(net.catalog, l, q.ids)
  {
    hide ProposerLoop, ReplayIds, HexEncode, Applies;
    var ts := ProposerApplies(StartProposer(l, pool), order);
    forall t | t in ts
      ensures Issued(net, t)
    {
      var i :| 0 <= i < |order| && order[i] == t;
    }
    AppliesIsReplay(net.catalog, l, ts, ProposerLoop(StartProposer(l, pool), order).ledger);
    assert ProposerLoop(StartProposer(l, pool), order).ids == HexIds(ts);
  }

  ghost predicate KnowsAll(net: Net, l: Ledger) {
    l.accounts.Keys == A0(net).Keys && WellKeyed(l.accounts)
  }

  lemma ApplyKnowsAll(net: Net, l: Ledger, t: Transaction)
    requires KnowsAll(net, l) && Knows(l.accounts, t)
    ensures KnowsAll(net, Apply(l, t))
  {
    hide InitialAccounts;
  }

  /** What lookups have to work with: keyed, issued entries. */
  ghost predicate PoolIssued(net: Net, pool: Pool) {
    PoolKeyed(pool) && forall k :: k in pool ==> Issued(net, pool[k])
  }

  /** A lookup of this ID is answered, or not even needed. */
  predicate Answered(txs: map<TxId, Transaction>, pool: Pool, remote: Pool, k: string) {
    HexDecode(k).Some? && (HexDecode(k).value in txs || k in pool || k in remote)
  }

  function FirstUnanswered(txs: map<TxId, Transaction>, pool: Pool, remote: Pool, ids: seq<string>): (i: nat)
    ensures i <= |ids| && (i < |ids| ==> !Answered(txs, pool, remote, ids[i]))
    ensures forall j :: 0 <= j < i ==> Answered(txs, pool, remote, ids[j])
  {
    if ids == [] || !Answered(txs, pool, remote, ids[0]) then 0 else 1 + FirstUnanswered(txs, pool, remote, ids[1..])
  }

  /** Meeting one ID does not change what is answered for the others. */
  lemma {:induction false} FirstUnansweredFrame(txs: map<TxId, Transaction>, txs': map<TxId, Transaction>, pool: Pool,
                                                pool': Pool, remote: Pool, ids: seq<string>)
    requires forall k :: k in ids ==> (Answered(txs, pool, remote, k) <==> Answered(txs', pool', remote, k))
    ensures FirstUnanswered(txs, pool, remote, ids) == FirstUnanswered(txs', pool', remote, ids)
  {
    hide Answered;
    if ids != [] {
      assert ids[0] in ids && Answered(txs, pool, remote, ids[0]) == Answered(txs', pool', remote, ids[0]);
      assert forall k :: k in ids[1..] ==> k in ids;
      FirstUnansweredFrame(txs, txs', pool, pool', remote, ids[1..]);
    }
  }

  /** A listed ID that is in the mempool or with the peers is found there, as it was issued. */
  lemma LookupFinds(net: Net, pool: Pool, txs: map<TxId, Transaction>, remote: Pool, k: string)
    requires PoolIssued(net, pool) && RemoteOk(net, remote) && (k in pool || k in remote)
    requires k in net.catalog && k == HexEncode(net.catalog[k].id) && net.catalog[k].id !in txs
    ensures GetTransactionByID(pool, txs, remote, k) == Some(net.catalog[k])
    ensures HexDecode(k) == Some(net.catalog[k].id)
  {
    hide HexEncode;
    assert HexDecode(HexEncode(net.catalog[k].id)) == Some(net.catalog[k].id);
  }

  /** What a follower holds between two IDs of a created block. */
  ghost predicate FollowerOk(net: Net, f: Follower, remote: Pool) {
    f.fault.None? && KnowsAll(net, f.ledger) && PoolIssued(net, f.pool) && RemoteOk(net, remote)
  }

  /** One ID: answered, it takes effect or not; unanswered, it ends the call with the ledger as it is. */
  lemma FollowerStepIsReplay(net: Net, f: Follower, k: string, remote: Pool)
    requires FollowerOk(net, f, remote)
    requires k in net.catalog && k == HexEncode(net.catalog[k].id) && Knows(A0(net), net.catalog[k])
    ensures var f1, t := FollowerStep(f, k, remote), net.catalog[k];
            if Answered(f.ledger.txs, f.pool, remote, k)
            then FollowerOk(net, f1, remote) &&
                 f1.ledger == (if Takes(f.ledger, t) then Apply(f.ledger, t) else f.ledger) &&
                 (f1.pool == f.pool || f1.pool == f.pool - {k})
            else f1.fault == Some(NoTransaction) && f1.ledger == f.ledger
  {
    hide HexEncode, InitialAccounts, Apply;
    assert HexDecode(k) == Some(net.catalog[k].id);
    if net.catalog[k].id !in f.ledger.txs && (k in f.pool || k in remote) {
      LookupFinds(net, f.pool, f.ledger.txs, remote, k);
      ApplyKnowsAll(net, f.ledger, net.catalog[k]);
    }
  }

  /** The other IDs of the block are answered after the step exactly as they were before it. */
  lemma AnswersStay(net: Net, f: Follower, ids: seq<string>, remote: Pool)
    requires FollowerOk(net, f, remote) && Lists(net, ids) && ids != []
    requires Answered(f.ledger.txs, f.pool, remote, ids[0])
    ensures var f1 := FollowerStep(f, ids[0], remote);
            FirstUnanswered(f1.ledger.txs, f1.pool, remote, ids[1..]) + 1 ==
                FirstUnanswered(f.ledger.txs, f.pool, remote, ids)
  {
    hide HexEncode, InitialAccounts, FollowerStep, FollowerOk, Apply;
    var f1, k0 := FollowerStep(f, ids[0], remote), ids[0];
    assert k0 in ids;
    FollowerStepIsReplay(net, f, k0, remote);
    forall k | k in ids[1..]
      ensures Answered(f1.ledger.txs, f1.pool, remote, k) <==> Answered(f.ledger.txs, f.pool, remote, k)
    {
      var i :| 0 <= i < |ids[1..]| && ids[1..][i] == k;
      assert ids[i + 1] == k && k != k0 && k in ids;
      assert HexDecode(k) == Some(net.catalog[k].id) && HexDecode(k0) == Some(net.catalog[k0].id);
      assert HexEncode(net.catalog[k].id) == k && HexEncode(net.catalog[k0].id) == k0;
      ApplyStores(f.ledger, net.catalog[k0]);
    }
    FirstUnansweredFrame(f1.ledger.txs, f.ledger.txs, f1.pool, f.pool, remote, ids[1..]);
  }

  lemma ApplyStores(l: Ledger, t: Transaction)
    ensures Takes(l, t) ==> Apply(l, t).txs == l.txs[t.id := t] && Apply(l, t).log == l.log + [t]
  {
  }

  // ---------- The reference meaning, continued ----------

  lemma {:induction false} ReplayGrows(catalog: Pool, l: Ledger, ids: seq<string>)
    ensures |l.log| <= |ReplayIds(catalog, l, ids).log|
    decreases |ids|
  {
    if ids != [] {
      ReplayGrows(catalog, if ids[0] in catalog && Takes(l, catalog[ids[0]]) then Apply(l, catalog[ids[0]]) else l,
                  ids[1..]);
    }
  }

  /** A list has no effect exactly when none of its transactions would take effect right away. */
  lemma {:induction false} ReplayIdleIff(catalog: Pool, l: Ledger, ids: seq<string>)
    requires forall k :: k in ids ==> k in catalog
    ensures ReplayIds(catalog, l, ids) == l <==> forall k :: k in ids ==> !Takes(l, catalog[k])
    decreases |ids|
  {
    if ids != [] {
      assert ids[0] in ids && forall k :: k in ids[1..] ==> k in ids;
      if Takes(l, catalog[ids[0]]) {
        ReplayGrows(catalog, Apply(l, catalog[ids[0]]), ids[1..]);
      } else {
        assert forall k :: k in ids ==> k == ids[0] || k in ids[1..];
        ReplayIdleIff(catalog, l, ids[1..]);
      }
    }
  }

  /** The follower's ledger is the meaning of the IDs before the first unanswered one, and the call fails
      exactly when there is such an ID. */
  lemma {:induction false} FollowerIsReplay(net: Net, f: Follower, ids: seq<string>, remote: Pool)
    requires FollowerOk(net, f, remote) && Lists(net, ids)
    ensures var g, n := FollowerLoop(f, ids, remote), FirstUnanswered(f.ledger.txs, f.pool, remote, ids);
            g.ledger == ReplayIds(net.catalog, f.ledger, ids[..n]) && (g.fault.Some? <==> n < |ids|)
    decreases |ids|
  {
    hide FollowerStep, FollowerOk, Apply, Takes, HexEncode, InitialAccounts, Answered, ReplayIds, FirstUnanswered;
    FollowerRuns(net, f, remote);
    var n := FirstUnanswered(f.ledger.txs, f.pool, remote, ids);
    if n == 0 {
      ReplayNothing(net.catalog, f.ledger, ids);
      FollowerStops(net, f, ids, remote);
    } else {
      assert ids[0] in ids && forall k :: k in ids[1..] ==> k in ids;
      FollowerStepIsReplay(net, f, ids[0], remote);
      AnswersStay(net, f, ids, remote);
      FollowerIsReplay(net, FollowerStep(f, ids[0], remote), ids[1..], remote);
      ReplayFirst(net.catalog, f.ledger, ids, n);
    }
  }

  /** The first lookup is unanswered, or there is none. */
  lemma FollowerStops(net: Net, f: Follower, ids: seq<string>, remote: Pool)
    requires FollowerOk(net, f, remote) && Lists(net, ids) && FirstUnanswered(f.ledger.txs, f.pool, remote, ids) == 0
    ensures var g := FollowerLoop(f, ids, remote); g.ledger == f.ledger && (g.fault.Some? <==> ids != [])
  {
    hide FollowerStep, FollowerOk, Apply, Takes, HexEncode, InitialAccounts, Answered;
    FollowerRuns(net, f, remote);
    if ids != [] {
      assert ids[0] in ids;
      FollowerStepIsReplay(net, f, ids[0], remote);
      assert FollowerLoop(f, ids, remote) == FollowerLoop(FollowerStep(f, ids[0], remote), ids[1..], remote);
    }
  }

  lemma ReplayNothing(catalog: Pool, l: Ledger, ids: seq<string>)
    ensures ReplayIds(catalog, l, ids[..0]) == l
  {
  }

  lemma ReplayFirst(catalog: Pool, l: Ledger, ids: seq<string>, n: nat)
    requires 0 < n <= |ids|
    ensures ReplayIds(catalog, l, ids[..n]) ==
            ReplayIds(catalog, if ids[0] in catalog && Takes(l, catalog[ids[0]]) then Apply(l, catalog[ids[0]]) else l,
                      ids[1..][..n - 1])
  {
    hide Apply, Takes;
    assert ids[..n][0] == ids[0] && ids[..n][1..] == ids[1..][..n - 1];
  }

  lemma FollowerRuns(net: Net, f: Follower, remote: Pool)
    ensures FollowerOk(net, f, remote) ==> f.fault.None?
  {
  }

  /** Peers that have every listed transaction leave nothing unanswered. */
  lemma {:induction false} CoveredIsAnswered(net: Net, txs: map<TxId, Transaction>, pool: Pool, remote: Pool,
                                             ids: seq<string>)
    requires RemoteOk(net, remote) && forall k :: k in ids ==> k in remote
    ensures FirstUnanswered(txs, pool, remote, ids) == |ids|
  {
    if ids != [] {
      assert ids[0] in ids && forall k :: k in ids[1..] ==> k in ids;
      CoveredIsAnswered(net, txs, pool, remote, ids[1..]);
    }
  }

  // ---------- Half a block, then the whole block ----------

  /** Transactions that are stored have no further effect. */
  lemma {:induction false} ReplayStored(catalog: Pool, l: Ledger, ids: seq<string>, more: seq<string>)
    requires forall k :: k in ids && k in catalog ==> catalog[k].id in l.txs
    ensures ReplayIds(catalog, l, ids + more) == ReplayIds(catalog, l, more)
    decreases |ids|
  {
    if ids == [] {
      assert ids + more == more;
    } else {
      assert ids[0] in ids && forall k :: k in ids[1..] ==> k in ids;
      ReplayStored(catalog, l, ids[1..], more);
      assert (ids + more)[1..] == ids[1..] + more && (ids + more)[0] == ids[0];
    }
  }

  lemma {:induction false} AppliesSplit(l: Ledger, ts: seq<Transaction>, r: Ledger, k: nat) returns (m: Ledger)
    requires Applies(l, ts, r) && k <= |ts|
    ensures Applies(l, ts[..k], m) && Applies(m, ts[k..], r)
    decreases k
  {
    hide Apply;
    if k == 0 {
      m := l;
      assert ts[0..] == ts;
    } else {
      m := AppliesSplit(Apply(l, ts[0]), ts[1..], r, k - 1);
      AppliesTo(l, ts, m, k);
      assert ts[1..][k - 1..] == ts[k..];
    }
  }

  lemma AppliesTo(l: Ledger, ts: seq<Transaction>, m: Ledger, k: nat)
    requires 0 < k <= |ts| && Takes(l, ts[0]) && Applies(Apply(l, ts[0]), ts[1..][..k - 1], m)
    ensures Applies(l, ts[..k], m)
  {
    AppliesCons(l, ts[0], ts[1..][..k - 1], m);
    assert [ts[0]] + ts[1..][..k - 1] == ts[..k];
  }

  lemma {:induction false} HexIdsSplit(ts: seq<Transaction>, k: nat)
    requires k <= |ts|
    ensures HexIds(ts) == HexIds(ts[..k]) + HexIds(ts[k..]) && HexIds(ts[..k]) == HexIds(ts)[..k]
  {
    hide HexEncode;
    var a, b := HexIds(ts[..k]), HexIds(ts[k..]);
    forall i | 0 <= i < |ts|
      ensures HexIds(ts)[i] == (a + b)[i]
    {
      if i < k {
        assert ts[..k][i] == ts[i];
      } else {
        assert ts[k..][i - k] == ts[i];
      }
    }
    assert HexIds(ts) == a + b;
    assert (a + b)[..k] == a;
  }

  /** Where each transaction of a block takes effect in turn, applying any number of them first and the
      whole block afterwards ends where the whole block alone does. */
  lemma RedeliveryRestores(catalog: Pool, l: Ledger, ts: seq<Transaction>, r: Ledger, k: nat)
    requires Applies(l, ts, r) && k <= |ts|
    requires forall t :: t in ts ==> HexEncode(t.id) in catalog && catalog[HexEncode(t.id)] == t
    ensures ReplayIds(catalog, ReplayIds(catalog, l, HexIds(ts)[..k]), HexIds(ts)) == r
  {
    hide HexEncode, ReplayIds, Applies;
    var m := AppliesSplit(l, ts, r, k);
    HexIdsSplit(ts, k);
    AppliesIsReplay(catalog, l, ts[..k], m);
    AppliesIsReplay(catalog, m, ts[k..], r);
    AppliesGrows(l, ts[..k], m);
    var first := HexIds(ts[..k]);
    forall id | id in first && id in catalog
      ensures catalog[id].id in m.txs
    {
      var i :| 0 <= i < |first| && first[i] == id;
      assert ts[i] in ts && ts[..k][i] == ts[i];
    }
    ReplayStored(catalog, m, first, HexIds(ts[k..]));
  }

  // ---------- Orderly runs ----------

  ghost predicate Replicated(net: Net, n: Node) {
    n.ledger == ReplayChain(net, n.blocks, n.current.index)
  }

  ghost predicate AllReplicated(net: Net, s: System) {
    forall i :: i in s.nodes ==> Replicated(net, s.nodes[i])
  }

  /** The turn goes through, or nothing would be applied before the entry it stops at. */
  predicate OrderlyTurn(n: Node, i: Word, order: seq<Transaction>, signature: Option<string>) {
    CanPropose(n, i) ==>
      || (signature.Some? && FirstBad(n.ledger, order) == |order|)
      || forall j :: 0 <= j < FirstBad(n.ledger, order) ==> !Takes(n.ledger, order[j])
  }

  /** None of these transactions would take effect at once. */
  predicate Idle(catalog: Pool, l: Ledger, ids: seq<string>) {
    forall k :: k in ids && k in catalog ==> !Takes(l, catalog[k])
  }

  predicate WillBeStored(n: Node, b: Block, remote: Pool) {
    b.index == n.current.index + 1 && FirstUnanswered(n.ledger.txs, n.pool, remote, b.txns) == |b.txns|
  }

  /** The block is old, or it is the next one and every lookup is answered, or nothing in it would take effect at
      once before a lookup stays unanswered. */
  predicate OrderlyDelivery(catalog: Pool, n: Node, b: Block, remote: Pool) {
    || b.index <= n.current.index
    || WillBeStored(n, b, remote)
    || Idle(catalog, n.ledger, b.txns[..FirstUnanswered(n.ledger.txs, n.pool, remote, b.txns)])
  }

  predicate Orderly(net: Net, s: System, step: Step)
    requires step.i in s.nodes
  {
    match step
    case TakeTurn(i, _, order, signature, _) => OrderlyTurn(s.nodes[i], i, order, signature)
    case HandleBlock(i, b, remote) => OrderlyDelivery(net.catalog, s.nodes[i], b, remote)
    case _ => true
  }

  ghost predicate OrderlyRun(net: Net, s: System, steps: seq<Step>)
    requires Legal(net, s, steps)
    decreases |steps|
  {
    steps == [] || (Orderly(net, s, steps[0]) && OrderlyRun(net, Do(net, s, steps[0]), steps[1..]))
  }

  /** In every state of the run all ledgers are the meaning of their chains. */
  ghost predicate ReplicatedThroughout(net: Net, s: System, steps: seq<Step>)
    requires Legal(net, s, steps)
    decreases |steps|
  {
    AllReplicated(net, s) && (steps == [] || ReplicatedThroughout(net, Do(net, s, steps[0]), steps[1..]))
  }

  // ---------- Turns ----------

  lemma AppendReplicates(net: Net, genuine: set<Block>, n: Node, n': Node, b: Block)
    requires NodeInv(net, genuine, n) && Appended(n, n', b) && Replicated(net, n)
    requires n'.ledger == ReplayIds(net.catalog, n.ledger, b.txns)
    ensures Replicated(net, n')
  {
    hide LedgerInv, PoolInv, ReplayIds, BlockKey;
    forall h: nat | 1 <= h <= n.current.index
      ensures BlockKey(h) in n.blocks && BlockKey(h) in n'.blocks && n.blocks[BlockKey(h)] == n'.blocks[BlockKey(h)]
    {
      BlockKeysNeverCollide(h, b.index);
    }
    ReplayChainFrame(net, n.blocks, n'.blocks, n.current.index);
  }

  lemma LedgerKnowsAll(net: Net, l: Ledger)
    requires LedgerInv(net, l)
    ensures KnowsAll(net, l) && LogMatchesTrie(l)
  {
    hide InitialAccounts;
    SameAccounts(net, l);
  }

  /** A turn that is due fails exactly when the snapshot holds a new entry with an unknown account, or
      signing fails. */
  lemma TurnFailsIff(n: Node, i: Word, order: seq<Transaction>, signature: Option<string>, time: Word)
    requires n.current.index < TWO_64 - 1 && CanPropose(n, i) && WellKeyed(n.ledger.accounts) &&
             IsSnapshot(n.pool, order)
    ensures Propose(n, i, order, signature, time).1.Declined? <==>
            FirstBad(n.ledger, order) < |order| || signature.None?
  {
    hide ProposerLoop, BlockKey, Eligible, HexEncode;
    ProposerFaultsIff(StartProposer(n.ledger, n.pool), order);
    ProposeShape(n, i, order, signature, time);
    if signature.Some? && FirstBad(n.ledger, order) == |order| {
      ProposeSucceeds(n, i, order, signature, time);
    }
  }

  /** After a turn that failed, the ledger is still the meaning of the chain exactly when no entry before the first
      one that is new and names an unknown account would have taken effect at once. */
  lemma FailedTurnReplicatesIff(net: Net, n: Node, i: Word, order: seq<Transaction>, signature: Option<string>,
                                time: Word)
    requires Replicated(net, n) && n.current.index < TWO_64 - 1 && CanPropose(n, i)
    requires Propose(n, i, order, signature, time).1.Declined?
    ensures Replicated(net, Propose(n, i, order, signature, time).0) <==>
            forall j :: 0 <= j < FirstBad(n.ledger, order) ==> !Takes(n.ledger, order[j])
  {
    hide ProposerLoop, ReplayChain, InitialAccounts, BlockKey, Eligible, Applies, HexEncode, Takes;
    var p := StartProposer(n.ledger, n.pool);
    ProposeShape(n, i, order, signature, time);
    var ts := ProposerApplies(p, order);
    NothingApplied(n.ledger, ts, ProposerLoop(p, order).ledger);
    assert ProposerLoop(p, order).ids == HexIds(ts);
    NothingListedIff(p, order);
  }

  lemma NothingApplied(l: Ledger, ts: seq<Transaction>, r: Ledger)
    requires Applies(l, ts, r)
    ensures r == l <==> ts == []
  {
    AppliesGrows(l, ts, r);
    assert |r.log| == |l.log| + |ts|;
  }

  /** A turn that is due and does not fail. */
  lemma GoodTurnReplicates(net: Net, genuine: set<Block>, n: Node, i: Word, order: seq<Transaction>,
                           signature: Option<string>, time: Word)
    requires NodeInv(net, genuine, n) && Replicated(net, n) && IsSnapshot(n.pool, order)
    requires Propose(n, i, order, signature, time).1.Proposed?
    ensures Replicated(net, Propose(n, i, order, signature, time).0)
  {
    hide NodeInv, PoolInv, Propose, ProposerLoop, ReplayChain, ReplayIds, IsSnapshot, BlockKey, Eligible;
    LedgerAndPool(net, genuine, n);
    BelowLimit(net, genuine, n);
    ProposeShape(n, i, order, signature, time);
    ProposerIsReplay(net, n.ledger, n.pool, order);
    var (n', p) := Propose(n, i, order, signature, time);
    AppendReplicates(net, genuine, n, n', p.block);
  }

  lemma TurnReplicatesIff(net: Net, genuine: set<Block>, n: Node, i: Word, order: seq<Transaction>,
                          signature: Option<string>, time: Word)
    requires NodeInv(net, genuine, n) && Replicated(net, n) && IsSnapshot(n.pool, order)
    ensures Replicated(net, Propose(n, i, order, signature, time).0) <==> OrderlyTurn(n, i, order, signature)
  {
    hide NodeInv, ProposerLoop, ReplayChain, IsSnapshot, InitialAccounts, BlockKey, Eligible, Takes, Sound, Applies;
    LedgerAndPool(net, genuine, n);
    BelowLimit(net, genuine, n);
    if CanPropose(n, i) {
      TurnFailsIff(n, i, order, signature, time);
      if Propose(n, i, order, signature, time).1.Declined? {
        FailedTurnReplicatesIff(net, n, i, order, signature, time);
      } else {
        GoodTurnReplicates(net, genuine, n, i, order, signature, time);
      }
    }
  }

  // ---------- Deliveries ----------

  lemma StartsOk(net: Net, genuine: set<Block>, n: Node, remote: Pool)
    requires NodeInv(net, genuine, n) && RemoteOk(net, remote)
    ensures FollowerOk(net, Follower(n.ledger, n.pool, None), remote) && LogMatchesTrie(n.ledger)
  {
    hide NodeInv, LedgerInv, KnowsAll, RemoteOk, LogMatchesTrie, HexEncode, InitialAccounts;
    LedgerAndPool(net, genuine, n);
    LedgerKnowsAll(net, n.ledger);
  }

  lemma HandleNextReplicates(net: Net, genuine: set<Block>, n: Node, b: Block, remote: Pool)
    requires NodeInv(net, genuine, n) && WellFormed(net, b) && RemoteOk(net, remote) && WillBeStored(n, b, remote)
    ensures var (n', failure) := HandleNewBlock(net.env, n, b, remote);
            && failure == None && Appended(n, n', b) && PoolShrinks(n.pool, n'.pool)
            && n'.ledger == ReplayIds(net.catalog, n.ledger, b.txns)
            && (Replicated(net, n) ==> Replicated(net, n'))
  {
    hide NodeInv, HandleNewBlock, FollowerLoop, Acceptable, ReplayChain, ReplayIds, BlockKey, Contiguous, LedgerInv;
    hide PoolInv, FollowerOk, Answered, RemoteOk, LogMatchesTrie;
    hide Replicated;
    var n' := HandleNewBlock(net.env, n, b, remote).0;
    StartsOk(net, genuine, n, remote);
    LedgerAndPool(net, genuine, n);
    ChainOf(net, genuine, n);
    BelowLimit(net, genuine, n);
    FollowerIsReplay(net, Follower(n.ledger, n.pool, None), b.txns, remote);
    assert b.txns[..|b.txns|] == b.txns;
    HandleSucceeds(net.env, n, b, remote);
    HandleShape(net.env, n, b, remote);
    FollowerPoolShrinks(net, n.ledger, n.pool, b.txns, remote);
    if Replicated(net, n) {
      AppendReplicates(net, genuine, n, n', b);
    }
  }

  lemma FollowerPoolShrinks(net: Net, l: Ledger, pool: Pool, ids: seq<string>, remote: Pool)
    requires LedgerInv(net, l) && PoolInv(net, pool) && RemoteOk(net, remote)
    ensures PoolShrinks(pool, FollowerLoop(Follower(l, pool, None), ids, remote).pool)
  {
    hide FollowerLoop, Applies, HexEncode, HexDecode, Settle, InitialAccounts;
    var ts := FollowerApplies(Follower(l, pool, None), ids, remote);
  }

  /** A created block above CURRENT that is not going to be stored: its records stay, and the IDs before the first
      unanswered lookup are executed all the same. */
  lemma UnstoredBlock(net: Net, genuine: set<Block>, n: Node, b: Block, remote: Pool)
    requires NodeInv(net, genuine, n) && WellFormed(net, b) && RemoteOk(net, remote)
    requires b.index > n.current.index && !WillBeStored(n, b, remote)
    ensures var n' := HandleNewBlock(net.env, n, b, remote).0;
            && SameRecords(n, n')
            && n'.ledger == ReplayIds(net.catalog, n.ledger,
                                      b.txns[..FirstUnanswered(n.ledger.txs, n.pool, remote, b.txns)])
  {
    hide NodeInv, FollowerLoop, VerifySignature, FindNode, ReplayIds, BlockKey, LedgerInv, PoolInv, FollowerOk;
    hide Answered, RemoteOk, Contiguous;
    hide LogMatchesTrie;
    StartsOk(net, genuine, n, remote);
    ChainOf(net, genuine, n);
    BelowLimit(net, genuine, n);
    FollowerIsReplay(net, Follower(n.ledger, n.pool, None), b.txns, remote);
    NotStored(n, b.index);
    var f := FollowerLoop(Follower(n.ledger, n.pool, None), b.txns, remote);
    SaveBlockOnlyNext(n.(ledger := f.ledger, pool := f.pool), b);
  }

  /** A block left half applied for want of a lookup and delivered whole later leads to exactly the ledger and
      the chain that one whole delivery leads to, given that its transactions take effect in turn. */
  lemma WholeDeliveryRestores(net: Net, genuine: set<Block>, n: Node, b: Block, remote: Pool, whole: Pool,
                              ts: seq<Transaction>, r: Ledger)
    requires NodeInv(net, genuine, n) && WellFormed(net, b) && b.index == n.current.index + 1
    requires RemoteOk(net, remote) && RemoteOk(net, whole) && (forall k :: k in b.txns ==> k in whole) &&
             !WillBeStored(n, b, remote)
    requires b.txns == HexIds(ts) && Applies(n.ledger, ts, r) && forall t :: t in ts ==> Issued(net, t)
    ensures var half := HandleNewBlock(net.env, n, b, remote).0;
            && NodeInv(net, genuine, half)
            && half.ledger
               == ReplayIds(net.catalog, n.ledger, b.txns[..FirstUnanswered(n.ledger.txs, n.pool, remote, b.txns)])
            && var restored := HandleNewBlock(net.env, half, b, whole).0;
               var direct := HandleNewBlock(net.env, n, b, whole).0;
               && restored.ledger == direct.ledger == r
               && restored.blocks == direct.blocks && restored.current == direct.current == b
  {
    hide NodeInv, HandleNewBlock, ReplayIds, BlockKey, Answered, RemoteOk, Acceptable, Takes, LedgerInv, PoolInv;
    hide HexIds, Applies, Replicated, PoolShrinks;
    hide FollowerLoop;
    var half, k := HandleNewBlock(net.env, n, b, remote).0, FirstUnanswered(n.ledger.txs, n.pool, remote, b.txns);
    UnstoredBlock(net, genuine, n, b, remote);
    HalfIsOk(net, genuine, n, b, remote);
    CoveredIsAnswered(net, half.ledger.txs, half.pool, whole, b.txns);
    CoveredIsAnswered(net, n.ledger.txs, n.pool, whole, b.txns);
    HandleNextReplicates(net, genuine, half, b, whole);
    HandleNextReplicates(net, genuine, n, b, whole);
    RedeliveryRestores(net.catalog, n.ledger, ts, r, k);
    AppliesIsReplay(net.catalog, n.ledger, ts, r);
  }

  lemma HalfIsOk(net: Net, genuine: set<Block>, n: Node, b: Block, remote: Pool)
    requires NodeInv(net, genuine, n) && RemoteOk(net, remote)
    requires SameRecords(n, HandleNewBlock(net.env, n, b, remote).0)
    ensures NodeInv(net, genuine, HandleNewBlock(net.env, n, b, remote).0)
  {
    hide NodeInv, HandleNewBlock, FollowerLoop, LedgerInv, PoolInv, RemoteOk, BlockKey, KeepsBlocks;
    LedgerAndPool(net, genuine, n);
    BelowLimit(net, genuine, n);
    HandleShape(net.env, n, b, remote);
    FollowerLoopInv(net, n.ledger, n.pool, b.txns, remote);
    SameChainInv(net, genuine, n, HandleNewBlock(net.env, n, b, remote).0);
  }

  /** After such a block the ledger is still the meaning of the chain exactly when no transaction listed before the
      first unanswered lookup would take effect at once. */
  lemma UnstoredBlockReplicatesIff(net: Net, genuine: set<Block>, n: Node, b: Block, remote: Pool)
    requires NodeInv(net, genuine, n) && Replicated(net, n) && WellFormed(net, b) && RemoteOk(net, remote)
    requires b.index > n.current.index && !WillBeStored(n, b, remote)
    ensures Replicated(net, HandleNewBlock(net.env, n, b, remote).0) <==>
            Idle(net.catalog, n.ledger, b.txns[..FirstUnanswered(n.ledger.txs, n.pool, remote, b.txns)])
  {
    hide NodeInv, HandleNewBlock, ReplayChain, ReplayIds, BlockKey, Answered, RemoteOk, Acceptable, Takes;
    UnstoredBlock(net, genuine, n, b, remote);
    var ids := b.txns[..FirstUnanswered(n.ledger.txs, n.pool, remote, b.txns)];
    assert forall k :: k in ids ==> k in b.txns;
    ReplayIdleIff(net.catalog, n.ledger, ids);
  }

  /** In particular: after a block that overtook its predecessor, with all lookups answered. */
  lemma EarlyBlockReplicatesIff(net: Net, genuine: set<Block>, n: Node, b: Block, remote: Pool)
    requires NodeInv(net, genuine, n) && Replicated(net, n) && WellFormed(net, b) && b.index > n.current.index + 1
    requires RemoteOk(net, remote) && forall k :: k in b.txns ==> k in remote
    ensures Replicated(net, HandleNewBlock(net.env, n, b, remote).0) <==> Idle(net.catalog, n.ledger, b.txns)
  {
    hide NodeInv, HandleNewBlock, ReplayChain, BlockKey, Answered, RemoteOk, Acceptable, Takes, Idle;
    CoveredIsAnswered(net, n.ledger.txs, n.pool, remote, b.txns);
    assert b.txns[..|b.txns|] == b.txns;
    UnstoredBlockReplicatesIff(net, genuine, n, b, remote);
  }

  lemma DeliveryReplicatesIff(net: Net, genuine: set<Block>, n: Node, b: Block, remote: Pool)
    requires NodeInv(net, genuine, n) && Replicated(net, n) && RemoteOk(net, remote)
    requires b.index > 0 ==> WellFormed(net, b)
    ensures Replicated(net, HandleNewBlock(net.env, n, b, remote).0) <==> OrderlyDelivery(net.catalog, n, b, remote)
  {
    hide NodeInv, HandleNewBlock, ReplayChain, BlockKey, WellFormed, Idle, RemoteOk, Contiguous, AllSigned;
    if b.index <= n.current.index {
      ChainOf(net, genuine, n);
      OldBlockIsIgnored(net.env, n, b, remote);
    } else if WillBeStored(n, b, remote) {
      HandleNextReplicates(net, genuine, n, b, remote);
    } else {
      UnstoredBlockReplicatesIff(net, genuine, n, b, remote);
    }
  }

  // ---------- Runs ----------

  /** The node that takes a step. */
  lemma ActingNodeReplicatesIff(net: Net, s: System, step: Step)
    requires Inv(net, s) && Enabled(net, s, step) && (step.TakeTurn? || step.HandleBlock?)
    requires Replicated(net, s.nodes[step.i])
    ensures step.i in Do(net, s, step).nodes
    ensures Replicated(net, Do(net, s, step).nodes[step.i]) <==> Orderly(net, s, step)
  {
    hide NodeInv, HandleNewBlock, Propose, Replicated, WellFormed, HeldByCreator, BlockKey, RemoteOk, IsSnapshot;
    hide Acceptable, OrderlyTurn, OrderlyDelivery;
    var n := s.nodes[step.i];
    match step {
      case TakeTurn(i, _, order, signature, time) => TurnReplicatesIff(net, Genuine(s), n, i, order, signature, time);
      case HandleBlock(_, b, remote) =>
        assert b in Genuine(s);
        DeliveryReplicatesIff(net, Genuine(s), n, b, remote);
    }
  }

  lemma OthersStay(net: Net, s: System, step: Step)
    requires Inv(net, s) && Enabled(net, s, step)
    ensures Do(net, s, step).nodes.Keys == s.nodes.Keys
    ensures forall i :: i in s.nodes && i != step.i ==> Do(net, s, step).nodes[i] == s.nodes[i]
    ensures !step.TakeTurn? && !step.HandleBlock? ==>
              var n, n' := s.nodes[step.i], Do(net, s, step).nodes[step.i];
              && n'.ledger == n.ledger && n'.blocks == n.blocks && n'.current == n.current
              && n'.last == if step.WriteLast? then Later(n.last, step.reader.block, step.reader.seen) else n.last
  {
    hide Inv, Boot, Propose, HandleNewBlock, AddToPool, Issued, IsSnapshot, RemoteOk, Acceptable, BlockKey;
    if step.Restart? {
      RestartInv(net, s, step);
    }
  }

  /** From a state in which all ledgers are the meaning of their chains, exactly the orderly steps lead to another. */
  lemma StepReplicatesIff(net: Net, s: System, step: Step)
    requires Inv(net, s) && Enabled(net, s, step) && AllReplicated(net, s)
    ensures AllReplicated(net, Do(net, s, step)) <==> Orderly(net, s, step)
  {
    hide Inv, Do, ReplayChain, OrderlyTurn, OrderlyDelivery, IsSnapshot, RemoteOk, Acceptable, Issued;
    OthersStay(net, s, step);
    assert step.i in s.nodes;
    if step.TakeTurn? || step.HandleBlock? {
      ActingNodeReplicatesIff(net, s, step);
    }
    forall i | i in s.nodes && i != step.i
      ensures Replicated(net, Do(net, s, step).nodes[i])
    {
      assert Replicated(net, s.nodes[i]);
    }
    assert Replicated(net, s.nodes[step.i]);
  }

  lemma {:induction false} RunReplicatesIff(net: Net, s: System, steps: seq<Step>)
    requires Inv(net, s) && Legal(net, s, steps) && AllReplicated(net, s)
    ensures ReplicatedThroughout(net, s, steps) <==> OrderlyRun(net, s, steps)
    ensures ReplicatedThroughout(net, s, steps) ==> AllReplicated(net, Execute(net, s, steps))
    decreases |steps|
  {
    hide Inv, Enabled, Do, AllReplicated, Orderly;
    if steps != [] {
      StepInv(net, s, steps[0]);
      StepActs(net, s, steps[0]);
      StepReplicatesIff(net, s, steps[0]);
      var s1 := Do(net, s, steps[0]);
      if AllReplicated(net, s1) {
        RunReplicatesIff(net, s1, steps[1..]);
      } else {
        NotThroughout(net, s1, steps[1..]);
      }
    }
  }

  lemma StepActs(net: Net, s: System, step: Step)
    requires Enabled(net, s, step)
    ensures step.i in s.nodes
  {
  }

  lemma NotThroughout(net: Net, s: System, steps: seq<Step>)
    requires Legal(net, s, steps) && !AllReplicated(net, s)
    ensures !ReplicatedThroughout(net, s, steps)
  {
  }

  lemma InitialReplicated(net: Net, t1: Word, t2: Word, t3: Word)
    ensures AllReplicated(net, Initial(net, t1, t2, t3))
  {
    hide Replicated, Boot;
    BootReplicated(net, t1);
    BootReplicated(net, t2);
    BootReplicated(net, t3);
  }

  lemma BootReplicated(net: Net, time: Word)
    ensures Replicated(net, Boot(EMPTY_STORE, time, net.addressOf))
  {
    hide EnsureTestAccounts, Contiguous, AllSigned, Sound, BlockKey;
    FirstBoot(time, net.addressOf);
  }

  /** In every run: all ledgers are the meaning of their chains in all its states exactly when all its steps
      are orderly. */
  lemma ReplicationInEveryRunIff(net: Net, t1: Word, t2: Word, t3: Word, steps: seq<Step>)
    requires Legal(net, Initial(net, t1, t2, t3), steps)
    ensures ReplicatedThroughout(net, Initial(net, t1, t2, t3), steps) <==>
            OrderlyRun(net, Initial(net, t1, t2, t3), steps)
  {
    hide *;
    InitialInv(net, t1, t2, t3);
    InitialReplicated(net, t1, t2, t3);
    RunReplicatesIff(net, Initial(net, t1, t2, t3), steps);
  }

  /** In every orderly run two nodes at the same CURRENT whose blocks agree at heights 1 and 2 have the same
      accounts, the same transaction trie and even the same order of application: above height 2 the blocks
      agree by themselves, and it does not matter which of them a node proposed or received. */
  lemma StateMachineReplication(net: Net, t1: Word, t2: Word, t3: Word, steps: seq<Step>, i: Word, j: Word)
    requires Legal(net, Initial(net, t1, t2, t3), steps) && OrderlyRun(net, Initial(net, t1, t2, t3), steps)
    requires 1 <= i <= 3 && 1 <= j <= 3
    ensures var s := Execute(net, Initial(net, t1, t2, t3), steps);
            && i in s.nodes && j in s.nodes
            && var (m, n) := (s.nodes[i], s.nodes[j]);
               (m.current.index == n.current.index && SameEarlyBlocks(m, n) ==> m.ledger == n.ledger)
  {
    hide *;
    InitialInv(net, t1, t2, t3);
    InitialReplicated(net, t1, t2, t3);
    RunReplicatesIff(net, Initial(net, t1, t2, t3), steps);
    RunInv(net, Initial(net, t1, t2, t3), steps);
    var s := Execute(net, Initial(net, t1, t2, t3), steps);
    NodeOf(net, s, i);
    NodeOf(net, s, j);
    EqualChainsEqualLedgers(net, s, i, j);
  }

  predicate SameEarlyBlocks(m: Node, n: Node) {
    forall h: nat | 1 <= h <= 2 && BothHold(m, n, h) :: BlockAt(m, h).txns == BlockAt(n, h).txns
  }

  lemma EqualChainsEqualLedgers(net: Net, s: System, i: Word, j: Word)
    requires Inv(net, s) && AllReplicated(net, s) && i in s.nodes && j in s.nodes
    ensures s.nodes[i].current.index == s.nodes[j].current.index && SameEarlyBlocks(s.nodes[i], s.nodes[j]) ==>
              s.nodes[i].ledger == s.nodes[j].ledger
  {
    hide Inv, BlockKey, ReplayChain;
    var m, n := s.nodes[i], s.nodes[j];
    if m.current.index == n.current.index && SameEarlyBlocks(m, n) {
      forall h: nat | 1 <= h <= m.current.index
        ensures BlockKey(h) in m.blocks && BlockKey(h) in n.blocks
        ensures m.blocks[BlockKey(h)].txns == n.blocks[BlockKey(h)].txns
      {
        Stored(net, s, i, h);
        Stored(net, s, j, h);
        assert BothHold(m, n, h);
        if h >= 3 {
          InvAgree(net, s);
        }
      }
      ReplayChainFrame(net, m.blocks, n.blocks, m.current.index);
    }
  }
}
