// The two loops that change a ledger: the proposer works through its mempool, a follower
// works through the IDs listed in a block.

module Processing {
  import opened Options
  import opened Words
  import opened Encoding
  import opened Transactions
  import opened Ledgers

  type Pool = map<string, Transaction>

  datatype Fault = UnknownSender | UnknownRecipient | BadTxId | NoTransaction

  /** A mempool entry sits under the hexadecimal text of its own ID. */
  ghost predicate PoolKeyed(pool: Pool) {
    forall k :: k in pool ==> k == HexEncode(pool[k].id)
  }

  /** Peers answer a lookup by ID with a transaction that has that ID. */
  ghost predicate RemoteKeyed(remote: Pool) {
    forall k :: k in remote ==> HexDecode(k) == Some(remote[k].id)
  }

  /** Entering an ID that is already there is refused. */
  function AddToPool(pool: Pool, t: Transaction): Pool {
    if HexEncode(t.id) in pool then pool else pool[HexEncode(t.id) := t]
  }

  /** The ID is there afterwards, whatever was there stays as it was, and a fresh ID gets this transaction: of two
      transactions with one ID the first one stays. */
  lemma AddToPoolKeeps(pool: Pool, t: Transaction)
    ensures AddToPool(pool, t).Keys == pool.Keys + {HexEncode(t.id)}
    ensures forall k :: k in pool ==> AddToPool(pool, t)[k] == pool[k]
    ensures HexEncode(t.id) !in pool ==> AddToPool(pool, t)[HexEncode(t.id)] == t
    ensures forall u: Transaction :: u.id == t.id ==> AddToPool(AddToPool(pool, t), u) == AddToPool(pool, t)
  {
  }

  // ---------- The proposer loop ----------

  datatype Proposer = Proposer(ledger: Ledger, pool: Pool, ids: seq<string>, fault: Option<Fault>)

  function ProposerStep(p: Proposer, t: Transaction): Proposer {
    var accounts, dropped := p.ledger.accounts, p.pool - {HexEncode(t.id)};
    if t.id in p.ledger.txs then p
    else if t.from !in accounts then p.(pool := dropped, fault := Some(UnknownSender))
    else if t.to !in accounts then p.(pool := dropped, fault := Some(UnknownRecipient))
    else if accounts[t.from].balance < t.amount then p.(pool := dropped)
    else Proposer(Apply(p.ledger, t), dropped, p.ids + [HexEncode(t.id)], None)
  }

  function ProposerLoop(p: Proposer, order: seq<Transaction>): Proposer
    decreases |order|
  {
    if order == [] || p.fault.Some? then p else ProposerLoop(ProposerStep(p, order[0]), order[1..])
  }

  function StartProposer(l: Ledger, pool: Pool): Proposer {
    Proposer(l, pool, [], None)
  }

  /** `order` lists the entries of a mempool, each once: what iterating the Go map may yield. */
  ghost predicate IsSnapshot(pool: Pool, order: seq<Transaction>) {
    && (forall i :: 0 <= i < |order| ==> HexEncode(order[i].id) in pool && pool[HexEncode(order[i].id)] == order[i])
    && (forall k :: k in pool ==> pool[k] in order)
    && (forall i, j :: 0 <= i < j < |order| ==> order[i].id != order[j].id)
  }

  /** One more entry under a fresh key. */
  lemma SnapshotAdd(pool: Pool, order: seq<Transaction>, t: Transaction)
    requires IsSnapshot(pool, order) && HexEncode(t.id) !in pool
    ensures IsSnapshot(pool[HexEncode(t.id) := t], order + [t])
  {
    hide HexEncode;
    var pool', order' := pool[HexEncode(t.id) := t], order + [t];
    assert order'[|order|] == t;
    forall key | key in pool'
      ensures pool'[key] in order'
    {
      if key != HexEncode(t.id) {
        assert pool[key] in order;
      }
    }
  }

  // ---------- The follower loop ----------

  datatype Follower = Follower(ledger: Ledger, pool: Pool, fault: Option<Fault>)

  /** Mempool first, then the transaction trie, then the peers. */
  function GetTransactionByID(pool: Pool, txs: map<TxId, Transaction>, remote: Pool, txID: string):
    Option<Transaction>
  {
    if txID in pool then Some(pool[txID])
    else match HexDecode(txID)
      case None => None
      case Some(id) =>
        if id in txs then Some(txs[id])
        else if txID in remote then Some(remote[txID])
        else None
  }

  function FollowerStep(f: Follower, txID: string, remote: Pool): Follower {
    var dropped := f.pool - {txID};
    match HexDecode(txID)
    case None => f.(fault := Some(BadTxId))
    case Some(id) =>
      if id in f.ledger.txs then f
      else match GetTransactionByID(f.pool, f.ledger.txs, remote, txID)
        case None => f.(pool := dropped, fault := Some(NoTransaction))
        case Some(t) =>
          if t.from !in f.ledger.accounts then f.(pool := dropped, fault := Some(UnknownSender))
          else if t.to !in f.ledger.accounts then f.(pool := dropped, fault := Some(UnknownRecipient))
          else if f.ledger.accounts[t.from].balance < t.amount then f.(pool := dropped)
          else f.(ledger := Apply(f.ledger, t))
  }

  function FollowerLoop(f: Follower, ids: seq<string>, remote: Pool): Follower
    decreases |ids|
  {
    if ids == [] || f.fault.Some? then f else FollowerLoop(FollowerStep(f, ids[0], remote), ids[1..], remote)
  }

  // One iteration at a time, in the form a loop over the list uses.

  lemma ProposerLoopUnfold(p: Proposer, order: seq<Transaction>, i: nat)
    requires i < |order| && p.fault.None?
    ensures ProposerLoop(p, order[i..]) == ProposerLoop(ProposerStep(p, order[i]), order[i + 1..])
    ensures ProposerStep(p, order[i]).fault.Some? ==> ProposerLoop(p, order[i..]) == ProposerStep(p, order[i])
  {
    hide ProposerStep;
    assert order[i..][1..] == order[i + 1..];
  }

  lemma FollowerLoopUnfold(f: Follower, ids: seq<string>, remote: Pool, i: nat)
    requires i < |ids| && f.fault.None?
    ensures FollowerLoop(f, ids[i..], remote) == FollowerLoop(FollowerStep(f, ids[i], remote), ids[i + 1..], remote)
    ensures FollowerStep(f, ids[i], remote).fault.Some? ==>
            FollowerLoop(f, ids[i..], remote) == FollowerStep(f, ids[i], remote)
  {
    hide FollowerStep;
    assert ids[i..][1..] == ids[i + 1..];
  }

  // ---------- Both loops only apply new, covered transactions ----------

  function HexIds(ts: seq<Transaction>): (ids: seq<string>)
    ensures |ids| == |ts| && forall i :: 0 <= i < |ts| ==> ids[i] == HexEncode(ts[i].id)
  {
    if ts == [] then [] else [HexEncode(ts[0].id)] + HexIds(ts[1..])
  }

  /** A turn of the proposer loop either applies `t` and lists it, or leaves ledger and list alone. */
  ghost predicate Turn(p: Proposer, t: Transaction, p1: Proposer) {
    if Takes(p.ledger, t)
    then p1.ledger == Apply(p.ledger, t) && p1.ids == p.ids + [HexEncode(t.id)] && p1.fault.None?
    else p1.ledger == p.ledger && p1.ids == p.ids
  }

  predicate Takes(l: Ledger, t: Transaction) {
    t.id !in l.txs && Applicable(l, t)
  }

  lemma ProposerStepIsTurn(p: Proposer, t: Transaction)
    ensures Turn(p, t, ProposerStep(p, t))
  {
  }

  function Taken(l: Ledger, t: Transaction, ts: seq<Transaction>): seq<Transaction> {
    if Takes(l, t) then [t] + ts else ts
  }

  lemma TurnThenApplies(p: Proposer, t: Transaction, p1: Proposer, ts: seq<Transaction>, q: Proposer)
    requires Turn(p, t, p1)
    requires Applies(p1.ledger, ts, q.ledger) && q.ids == p1.ids + HexIds(ts)
    ensures Applies(p.ledger, Taken(p.ledger, t, ts), q.ledger)
    ensures q.ids == p.ids + HexIds(Taken(p.ledger, t, ts))
  {
    if Takes(p.ledger, t) {
      AppliesCons(p.ledger, t, ts, q.ledger);
      ConcatAssociates(p.ids, [HexEncode(t.id)], HexIds(ts));
    }
  }

  lemma ConcatAssociates<T>(a: seq<T>, b: seq<T>, c: seq<T>)
    ensures a + b + c == a + (b + c)
  {
  }

  lemma AppliesCons(l: Ledger, t: Transaction, ts: seq<Transaction>, r: Ledger)
    requires Takes(l, t) && Applies(Apply(l, t), ts, r)
    ensures Applies(l, [t] + ts, r) && HexIds([t] + ts) == [HexEncode(t.id)] + HexIds(ts)
  {
    assert ([t] + ts)[1..] == ts;
  }

  lemma {:induction false} ProposerApplies(p: Proposer, order: seq<Transaction>) returns (ts: seq<Transaction>)
    ensures Applies(p.ledger, ts, ProposerLoop(p, order).ledger)
    ensures ProposerLoop(p, order).ids == p.ids + HexIds(ts)
    ensures forall t :: t in ts ==> t in order
    decreases |order|
  {
    if order == [] || p.fault.Some? {
      ts := [];
    } else {
      var rest := ProposerApplies(ProposerStep(p, order[0]), order[1..]);
      ProposerStepIsTurn(p, order[0]);
      TurnThenApplies(p, order[0], ProposerStep(p, order[0]), rest, ProposerLoop(p, order));
      ts := Taken(p.ledger, order[0], rest);
    }
  }

  /** Entries only leave a mempool. */
  ghost predicate PoolShrinks(pool: Pool, pool': Pool) {
    forall k :: k in pool' ==> k in pool && pool'[k] == pool[k]
  }

  lemma {:induction false} ProposerPoolShrinks(p: Proposer, order: seq<Transaction>)
    ensures PoolShrinks(p.pool, ProposerLoop(p, order).pool)
    decreases |order|
  {
    if order != [] && p.fault.None? {
      ProposerPoolShrinks(ProposerStep(p, order[0]), order[1..]);
    }
  }

  /** `t` can come out of a lookup. */
  ghost predicate CanBeFound(pool: Pool, remote: Pool, t: Transaction) {
    (exists k :: k in pool && pool[k] == t) || (exists k :: k in remote && remote[k] == t)
  }

  /** A turn of the follower loop either applies one looked-up transaction or leaves the ledger alone. */
  lemma FollowerStepIsTurn(f: Follower, txID: string, remote: Pool) returns (applied: Option<Transaction>)
    requires PoolKeyed(f.pool) && RemoteKeyed(remote) && LogMatchesTrie(f.ledger)
    ensures var f1 := FollowerStep(f, txID, remote);
            match applied
            case None => f1.ledger == f.ledger && PoolShrinks(f.pool, f1.pool)
            case Some(t) =>
              && Takes(f.ledger, t) && f1.ledger == Apply(f.ledger, t)
              && f1.pool == f.pool && CanBeFound(f.pool, remote, t)
  {
    applied := None;
    if HexDecode(txID).Some? && HexDecode(txID).value !in f.ledger.txs {
      var found := GetTransactionByID(f.pool, f.ledger.txs, remote, txID);
      if found.Some? {
        assert HexDecode(txID) == Some(found.value.id) && CanBeFound(f.pool, remote, found.value);
        if Applicable(f.ledger, found.value) {
          applied := found;
        }
      }
    }
  }

  lemma {:induction false} FollowerApplies(f: Follower, ids: seq<string>, remote: Pool) returns (ts: seq<Transaction>)
    requires PoolKeyed(f.pool) && RemoteKeyed(remote) && LogMatchesTrie(f.ledger)
    ensures Applies(f.ledger, ts, FollowerLoop(f, ids, remote).ledger)
    ensures PoolShrinks(f.pool, FollowerLoop(f, ids, remote).pool)
    ensures forall t :: t in ts ==> CanBeFound(f.pool, remote, t)
    decreases |ids|
  {
    if ids == [] || f.fault.Some? {
      ts := [];
    } else {
      var f1 := FollowerStep(f, ids[0], remote);
      var applied := FollowerStepIsTurn(f, ids[0], remote);
      if applied.Some? {
        ApplyKeepsLog(f.ledger, applied.value);
      }
      var rest := FollowerApplies(f1, ids[1..], remote);
      if applied.Some? {
        AppliesCons(f.ledger, applied.value, rest, FollowerLoop(f, ids, remote).ledger);
        ts := [applied.value] + rest;
      } else {
        ts := rest;
      }
    }
  }

  /** A lookup under a key that decodes comes up with a transaction of that ID, the mempool's own if it has one. */
  lemma LookupKeepsId(pool: Pool, txs: map<TxId, Transaction>, remote: Pool, txID: string)
    requires PoolKeyed(pool) && RemoteKeyed(remote) && HexDecode(txID).Some? && HexDecode(txID).value !in txs
    ensures var found := GetTransactionByID(pool, txs, remote, txID);
            && (found.Some? ==> HexDecode(txID) == Some(found.value.id))
            && (txID in pool ==> found == Some(pool[txID]))
  {
    hide HexDecode;
  }

  /** What one ID of a follower call does to the mempool. */
  lemma FollowerStepPool(f: Follower, txID: string, remote: Pool)
    requires PoolKeyed(f.pool) && RemoteKeyed(remote) && f.fault.None?
    ensures var g := FollowerStep(f, txID, remote);
            && (g.pool == f.pool || g.pool == f.pool - {txID})
            && (forall id :: id in f.ledger.txs ==> id in g.ledger.txs)
            && (forall id :: id in g.ledger.txs ==> id in f.ledger.txs || HexDecode(txID) == Some(id))
            && (txID in f.pool ==> (txID in g.pool <==> f.pool[txID].id in g.ledger.txs))
  {
    hide HexEncode, HexDecode, GetTransactionByID, Apply;
    if HexDecode(txID).Some? && HexDecode(txID).value !in f.ledger.txs {
      LookupKeepsId(f.pool, f.ledger.txs, remote, txID);
      var found := GetTransactionByID(f.pool, f.ledger.txs, remote, txID);
      if found.Some? && Knows(f.ledger.accounts, found.value) {
        ApplyRecords(f.ledger, found.value);
      }
    }
  }

  /** Entries only leave, stored transactions stay, and what is stored was stored or is listed. */
  lemma {:induction false} FollowerStores(f: Follower, ids: seq<string>, remote: Pool)
    requires PoolKeyed(f.pool) && RemoteKeyed(remote)
    ensures var g := FollowerLoop(f, ids, remote);
            && PoolShrinks(f.pool, g.pool)
            && (forall id :: id in f.ledger.txs ==> id in g.ledger.txs)
            && (forall id :: id in g.ledger.txs ==>
                  id in f.ledger.txs || exists i :: 0 <= i < |ids| && HexDecode(ids[i]) == Some(id))
    decreases |ids|
  {
    hide FollowerStep, HexEncode, HexDecode;
    if ids != [] && f.fault.None? {
      var f1 := FollowerStep(f, ids[0], remote);
      FollowerStepPool(f, ids[0], remote);
      FollowerStores(f1, ids[1..], remote);
      forall id | id in FollowerLoop(f, ids, remote).ledger.txs && id !in f.ledger.txs
        ensures exists i :: 0 <= i < |ids| && HexDecode(ids[i]) == Some(id)
      {
        if id !in f1.ledger.txs {
          var i :| 0 <= i < |ids[1..]| && HexDecode(ids[1..][i]) == Some(id);
          assert HexDecode(ids[i + 1]) == Some(id);
        }
      }
    }
  }

  /** The IDs that a follower call meets: all of them, or those up to and with the one it stops at. */
  function Met(f: Follower, ids: seq<string>, remote: Pool): (n: nat)
    ensures n <= |ids|
    decreases |ids|
  {
    if ids == [] || f.fault.Some? then 0 else 1 + Met(FollowerStep(f, ids[0], remote), ids[1..], remote)
  }

  /** A call that meets fewer stops with an error, and the IDs that are not met do not matter. */
  lemma {:induction false} MetIff(f: Follower, ids: seq<string>, remote: Pool)
    requires f.fault.None?
    ensures Met(f, ids, remote) < |ids| ==> FollowerLoop(f, ids, remote).fault.Some?
    ensures FollowerLoop(f, ids, remote) == FollowerLoop(f, ids[..Met(f, ids, remote)], remote)
    ensures forall k :: 0 <= k < Met(f, ids, remote) ==> FollowerLoop(f, ids[..k], remote).fault.None?
    decreases |ids|
  {
    hide FollowerStep;
    if ids != [] {
      var f1 := FollowerStep(f, ids[0], remote);
      if f1.fault.None? {
        MetIff(f1, ids[1..], remote);
        var n := Met(f, ids, remote);
        assert ids[..n][1..] == ids[1..][..n - 1];
        forall k | 0 < k < n
          ensures FollowerLoop(f, ids[..k], remote).fault.None?
        {
          assert ids[..k][1..] == ids[1..][..k - 1];
        }
      } else {
        assert ids[..1][1..] == [];
      }
    }
  }

  /** The reasons to stop at an ID: it does not decode, or it is new and either no lookup answers or the answer names an
      account that does not exist. */
  predicate StopsAt(f: Follower, txID: string, remote: Pool) {
    match HexDecode(txID)
    case None => true
    case Some(id) =>
      id !in f.ledger.txs &&
      match GetTransactionByID(f.pool, f.ledger.txs, remote, txID)
      case None => true
      case Some(t) => t.from !in f.ledger.accounts || t.to !in f.ledger.accounts
  }

  /** Any list, well formed or not: a call fails exactly when there is a reason to stop at the last ID met. */
  lemma {:induction false} FollowerStopsIff(f: Follower, ids: seq<string>, remote: Pool)
    requires f.fault.None?
    ensures var n := Met(f, ids, remote);
            FollowerLoop(f, ids, remote).fault.Some? <==>
            n > 0 && StopsAt(FollowerLoop(f, ids[..n - 1], remote), ids[n - 1], remote)
    decreases |ids|
  {
    hide HexDecode, GetTransactionByID, Apply;
    if ids != [] {
      var f1 := FollowerStep(f, ids[0], remote);
      var n := Met(f, ids, remote);
      assert ids[..0] == [];
      assert f1.fault.Some? <==> StopsAt(f, ids[0], remote);
      if f1.fault.None? {
        hide FollowerStep, StopsAt;
        FollowerStopsIff(f1, ids[1..], remote);
        if n > 1 {
          assert ids[..n - 1][1..] == ids[1..][..n - 2] && ids[1..][n - 2] == ids[n - 1];
        }
      }
    }
  }

  /** After a follower call an entry has left the mempool exactly if it was met and its transaction is not stored: what
      took effect stays, and what was refused goes. The IDs listed are different, as those of every created block. */
  lemma {:induction false} FollowerPool(f: Follower, ids: seq<string>, remote: Pool, k: string)
    requires PoolKeyed(f.pool) && RemoteKeyed(remote) && f.fault.None? && k in f.pool
    requires forall i, j :: 0 <= i < j < |ids| && HexDecode(ids[i]).Some? ==> HexDecode(ids[i]) != HexDecode(ids[j])
    ensures var g := FollowerLoop(f, ids, remote);
            k in g.pool <==> k !in ids[..Met(f, ids, remote)] || f.pool[k].id in g.ledger.txs
    decreases |ids|
  {
    hide FollowerStep, HexEncode, HexDecode;
    if ids != [] {
      var f1 := FollowerStep(f, ids[0], remote);
      FollowerStepPool(f, ids[0], remote);
      var n := Met(f, ids, remote);
      var g := FollowerLoop(f, ids, remote);
      assert ids[..n] == [ids[0]] + ids[1..][..n - 1];
      if f1.fault.None? {
        FollowerStores(f1, ids[1..], remote);
        if k in f1.pool {
          FollowerPool(f1, ids[1..], remote, k);
        }
        if k == ids[0] {
          NotListedAgain(f, ids, k);
        }
      }
    }
  }

  lemma NotListedAgain(f: Follower, ids: seq<string>, k: string)
    requires PoolKeyed(f.pool) && k in f.pool && ids != [] && ids[0] == k
    requires forall i, j :: 0 <= i < j < |ids| && HexDecode(ids[i]).Some? ==> HexDecode(ids[i]) != HexDecode(ids[j])
    ensures k !in ids[1..] && forall i :: 0 <= i < |ids[1..]| ==> HexDecode(ids[1..][i]) != Some(f.pool[k].id)
  {
    hide HexEncode, HexDecode;
    assert HexDecode(HexEncode(f.pool[k].id)) == Some(f.pool[k].id);
    forall i | 0 <= i < |ids[1..]|
      ensures HexDecode(ids[1..][i]) != Some(f.pool[k].id) && ids[1..][i] != k
    {
      assert ids[1..][i] == ids[i + 1];
    }
  }

  // ---------- Replay ----------

  /** The follower's lookups answer every listed ID with the transaction the proposer stored. */
  ghost predicate Answers(pool: Pool, remote: Pool, txs: map<TxId, Transaction>, ids: seq<string>) {
    forall k :: k in ids ==>
      && HexDecode(k).Some? && HexDecode(k).value in txs
      && var t := txs[HexDecode(k).value];
         if k in pool then pool[k] == t else k in remote && remote[k] == t
  }

  lemma FollowerTakes(l: Ledger, t: Transaction, pool: Pool, remote: Pool)
    requires Takes(l, t)
    requires var k := HexEncode(t.id); if k in pool then pool[k] == t else k in remote && remote[k] == t
    ensures FollowerStep(Follower(l, pool, None), HexEncode(t.id), remote) == Follower(Apply(l, t), pool, None)
  {
  }

  /** Feeding a follower the IDs of any run of new, covered transfers repeats that run. */
  lemma {:induction false} ReplayApplied(l: Ledger, ts: seq<Transaction>, r: Ledger, pool: Pool, remote: Pool)
    requires Applies(l, ts, r) && Answers(pool, remote, r.txs, HexIds(ts))
    ensures FollowerLoop(Follower(l, pool, None), HexIds(ts), remote) == Follower(r, pool, None)
    decreases |ts|
  {
    hide HexEncode, HexDecode, FollowerStep, Apply;
    if ts != [] {
      var t, rest := ts[0], ts[1..];
      AppliesGrows(l, ts, r);
      assert HexIds(ts) == [HexEncode(t.id)] + HexIds(rest);
      assert HexIds(ts)[0] in HexIds(ts) && r.txs[t.id] == t;
      FollowerTakes(l, t, pool, remote);
      assert forall k :: k in HexIds(rest) ==> k in HexIds(ts);
      ReplayApplied(Apply(l, t), rest, r, pool, remote);
    }
  }

  /** Whatever order the proposer took its mempool in, and even when it stopped early, its ID list
      brings a follower that starts from the same ledger to exactly the proposer's ledger. */
  lemma ReplayEquivalence(l: Ledger, proposerPool: Pool, order: seq<Transaction>, pool: Pool, remote: Pool)
    requires var q := ProposerLoop(StartProposer(l, proposerPool), order);
             Answers(pool, remote, q.ledger.txs, q.ids)
    ensures var q := ProposerLoop(StartProposer(l, proposerPool), order);
            FollowerLoop(Follower(l, pool, None), q.ids, remote) == Follower(q.ledger, pool, None)
  {
    hide ProposerLoop, FollowerLoop, Applies, HexIds, HexEncode, HexDecode;
    var ts := ProposerApplies(StartProposer(l, proposerPool), order);
    var q := ProposerLoop(StartProposer(l, proposerPool), order);
    assert [] + HexIds(ts) == HexIds(ts);
    assert q.ids == HexIds(ts);
    ReplayApplied(l, ts, q.ledger, pool, remote);
  }

  // ---------- What a proposal does to the mempool ----------

  lemma {:induction false} ProposerLoopSplit(p: Proposer, order: seq<Transaction>, i: nat)
    requires i <= |order|
    ensures ProposerLoop(p, order) == ProposerLoop(ProposerLoop(p, order[..i]), order[i..])
    decreases i
  {
    if i == 0 {
      assert order[..0] == [] && order[0..] == order;
    } else if p.fault.None? {
      ProposerLoopSplit(ProposerStep(p, order[0]), order[1..], i - 1);
      assert order[1..][..i - 1] == order[..i][1..] && order[1..][i - 1..] == order[i..];
    }
  }

  /** Every entry met is taken out of the mempool, unless it was in the trie when the call began. */
  lemma {:induction false} ProposerPool(p: Proposer, order: seq<Transaction>)
    requires p.fault.None? && ProposerLoop(p, order).fault.None?
    ensures forall k :: k in ProposerLoop(p, order).pool <==>
              k in p.pool && forall i :: 0 <= i < |order| && HexEncode(order[i].id) == k ==> order[i].id in p.ledger.txs
    ensures forall k :: k in ProposerLoop(p, order).pool ==> ProposerLoop(p, order).pool[k] == p.pool[k]
    decreases |order|
  {
    if order != [] {
      var t, p1, rest := order[0], ProposerStep(p, order[0]), order[1..];
      assert p1.fault.None?;
      ProposerPool(p1, rest);
      forall k
        ensures k in ProposerLoop(p, order).pool <==>
                k in p.pool && forall i :: 0 <= i < |order| && HexEncode(order[i].id) == k ==>
                    order[i].id in p.ledger.txs
      {
        HexEncodeInjectiveAt(k, t.id);
        assert order == [t] + rest;
        assert forall i :: 0 <= i < |rest| ==> rest[i] == order[i + 1];
      }
    }
  }

  lemma HexEncodeInjectiveAt(k: string, id: TxId)
    ensures k == HexEncode(id) ==> forall j :: HexEncode(j) == k ==> j == id
  {
    forall j | HexEncode(j) == k && k == HexEncode(id)
      ensures j == id
    {
      HexEncodeInjective(j, id);
    }
  }

  /** The entry met at position i was refused because its sender could not pay at that moment. */
  ghost predicate PoorAtItsTurn(l: Ledger, pool: Pool, order: seq<Transaction>, i: nat)
    requires i < |order|
  {
    var before := ProposerLoop(StartProposer(l, pool), order[..i]).ledger;
    Knows(before.accounts, order[i]) && before.accounts[order[i].from].balance < order[i].amount
  }

  /** After a call without error the snapshot splits three ways, for every iteration order: what stays
      in the mempool was stored before, the returned IDs are exactly the newly stored ones, and
      everything else could not pay at its turn. */
  lemma MempoolPartition(l: Ledger, pool: Pool, order: seq<Transaction>)
    requires PoolKeyed(pool) && IsSnapshot(pool, order)
    requires ProposerLoop(StartProposer(l, pool), order).fault.None?
    ensures var q := ProposerLoop(StartProposer(l, pool), order);
            && q.pool == (map k | k in pool && pool[k].id in l.txs :: pool[k])
            && (forall i, j :: 0 <= i < j < |q.ids| ==> q.ids[i] != q.ids[j])
            && (forall id :: HexEncode(id) in q.ids <==> id in q.ledger.txs && id !in l.txs)
            && (forall i :: 0 <= i < |order| && order[i].id !in l.txs && HexEncode(order[i].id) !in q.ids ==>
                  PoorAtItsTurn(l, pool, order, i))
  {
    var p := StartProposer(l, pool);
    var q := ProposerLoop(p, order);
    SurvivorsWereStored(p, order);
    ReturnedAreNew(l, pool, order);
    forall i | 0 <= i < |order| && order[i].id !in l.txs && HexEncode(order[i].id) !in q.ids
      ensures PoorAtItsTurn(l, pool, order, i)
    {
      RefusedMeansPoor(p, order, i);
    }
  }

  lemma SurvivorsWereStored(p: Proposer, order: seq<Transaction>)
    requires PoolKeyed(p.pool) && IsSnapshot(p.pool, order)
    requires p.fault.None? && ProposerLoop(p, order).fault.None?
    ensures ProposerLoop(p, order).pool == map k | k in p.pool && p.pool[k].id in p.ledger.txs :: p.pool[k]
  {
    hide HexEncode, ProposerLoop;
    ProposerPool(p, order);
    forall k | k in p.pool
      ensures k in ProposerLoop(p, order).pool <==> p.pool[k].id in p.ledger.txs
    {
      var i :| 0 <= i < |order| && order[i] == p.pool[k];
      HexEncodeInjectiveAt(k, p.pool[k].id);
    }
  }

  lemma ReturnedAreNew(l: Ledger, pool: Pool, order: seq<Transaction>)
    ensures var q := ProposerLoop(StartProposer(l, pool), order);
            && (forall i, j :: 0 <= i < j < |q.ids| ==> q.ids[i] != q.ids[j])
            && (forall id :: HexEncode(id) in q.ids <==> id in q.ledger.txs && id !in l.txs)
  {
    hide HexEncode, Applies, ProposerLoop;
    var ts := ProposerApplies(StartProposer(l, pool), order);
    assert ProposerLoop(StartProposer(l, pool), order).ids == HexIds(ts);
    ListedDistinct(l, ts, ProposerLoop(StartProposer(l, pool), order).ledger);
    ListedAreNew(l, ts, ProposerLoop(StartProposer(l, pool), order).ledger);
  }

  lemma ListedDistinct(l: Ledger, ts: seq<Transaction>, r: Ledger)
    requires Applies(l, ts, r)
    ensures forall i, j :: 0 <= i < j < |ts| ==> HexIds(ts)[i] != HexIds(ts)[j]
  {
    AppliedIdsDistinct(l, ts, r);
    forall i, j | 0 <= i < j < |ts|
      ensures HexIds(ts)[i] != HexIds(ts)[j]
    {
      HexEncodeInjective(ts[i].id, ts[j].id);
    }
  }

  lemma ListedAreNew(l: Ledger, ts: seq<Transaction>, r: Ledger)
    requires Applies(l, ts, r)
    ensures forall id :: HexEncode(id) in HexIds(ts) <==> id in r.txs && id !in l.txs
  {
    hide HexEncode, Applies;
    AppliesGrows(l, ts, r);
    forall id
      ensures HexEncode(id) in HexIds(ts) <==> id in r.txs && id !in l.txs
    {
      if HexEncode(id) in HexIds(ts) {
        var i :| 0 <= i < |ts| && HexIds(ts)[i] == HexEncode(id);
        HexEncodeInjective(id, ts[i].id);
      }
      if id in r.txs && id !in l.txs {
        var i :| 0 <= i < |ts| && ts[i].id == id;
        assert HexIds(ts)[i] == HexEncode(id);
      }
    }
  }

  lemma {:induction false} AppliedIdsDistinct(l: Ledger, ts: seq<Transaction>, r: Ledger)
    requires Applies(l, ts, r)
    ensures forall i, j :: 0 <= i < j < |ts| ==> ts[i].id != ts[j].id
    decreases |ts|
  {
    if ts != [] {
      var l1, rest := Apply(l, ts[0]), ts[1..];
      AppliedIdsDistinct(l1, rest, r);
      AppliesGrows(l1, rest, r);
      forall i, j | 0 <= i < j < |ts|
        ensures ts[i].id != ts[j].id
      {
        assert ts[j] == rest[j - 1];
        if i > 0 {
          assert ts[i] == rest[i - 1];
        } else {
          assert ts[0].id in l1.txs;
        }
      }
    }
  }

  lemma RefusedMeansPoor(p: Proposer, order: seq<Transaction>, i: nat)
    requires i < |order| && p.fault.None? && ProposerLoop(p, order).fault.None?
    requires order[i].id !in p.ledger.txs && HexEncode(order[i].id) !in ProposerLoop(p, order).ids
    ensures var before := ProposerLoop(p, order[..i]).ledger;
            Knows(before.accounts, order[i]) && before.accounts[order[i].from].balance < order[i].amount
  {
    hide HexEncode, Apply;
    var q := ProposerLoop(p, order[..i]);
    ProposerLoopSplit(p, order, i);
    assert order[i..][0] == order[i];
    var q1 := ProposerStep(q, order[i]);
    assert ProposerLoop(p, order) == ProposerLoop(q1, order[i..][1..]);
    var before := ProposerApplies(p, order[..i]);
    var after := ProposerApplies(q1, order[i..][1..]);
    AppliesGrows(p.ledger, before, q.ledger);
  }

  // ---------- When a proposer call fails, and when it does nothing ----------

  /** An entry the loop stops at: new, and naming an account that does not exist. */
  predicate Bad(l: Ledger, t: Transaction) {
    t.id !in l.txs && !Knows(l.accounts, t)
  }

  function FirstBad(l: Ledger, order: seq<Transaction>): (i: nat)
    ensures i <= |order| && (i < |order| ==> Bad(l, order[i]))
    ensures forall j :: 0 <= j < i ==> !Bad(l, order[j])
  {
    if order == [] || Bad(l, order[0]) then 0 else 1 + FirstBad(l, order[1..])
  }

  /** An entry other than those met so far is as good or bad as it was when the call began. */
  lemma {:induction false} FirstBadFrame(l: Ledger, t: Transaction, order: seq<Transaction>)
    requires WellKeyed(l.accounts) && Knows(l.accounts, t)
    requires forall i :: 0 <= i < |order| ==> order[i].id != t.id
    ensures FirstBad(Apply(l, t), order) == FirstBad(l, order)
    decreases |order|
  {
    if order != [] {
      assert Apply(l, t).accounts.Keys == l.accounts.Keys;
      assert Bad(Apply(l, t), order[0]) <==> Bad(l, order[0]);
      FirstBadFrame(l, t, order[1..]);
    }
  }

  /** A call fails exactly when the snapshot holds a new entry that names an unknown account. */
  lemma {:induction false} ProposerFaultsIff(p: Proposer, order: seq<Transaction>)
    requires p.fault.None? && WellKeyed(p.ledger.accounts)
    requires forall i, j :: 0 <= i < j < |order| ==> order[i].id != order[j].id
    ensures ProposerLoop(p, order).fault.Some? <==> FirstBad(p.ledger, order) < |order|
    decreases |order|
  {
    hide HexEncode;
    if order != [] {
      var t, p1, rest := order[0], ProposerStep(p, order[0]), order[1..];
      assert p1.fault.Some? <==> Bad(p.ledger, t);
      if p1.fault.None? {
        if Takes(p.ledger, t) {
          FirstBadFrame(p.ledger, t, rest);
          ApplyKeepsKeys(p.ledger, t);
        }
        ProposerFaultsIff(p1, rest);
      }
    }
  }

  lemma ApplyKeepsKeys(l: Ledger, t: Transaction)
    requires WellKeyed(l.accounts) && Knows(l.accounts, t)
    ensures WellKeyed(Apply(l, t).accounts) && Apply(l, t).accounts.Keys == l.accounts.Keys
  {
  }

  /** A call, failing or not, applies nothing exactly when no entry before the first bad one would take
      effect at once. */
  lemma {:induction false} NothingListedIff(p: Proposer, order: seq<Transaction>)
    requires p.fault.None?
    ensures ProposerLoop(p, order).ids == p.ids <==>
            forall i :: 0 <= i < FirstBad(p.ledger, order) ==> !Takes(p.ledger, order[i])
    decreases |order|
  {
    hide HexEncode, Apply;
    if order != [] && !Bad(p.ledger, order[0]) {
      var p1, rest := ProposerStep(p, order[0]), order[1..];
      if Takes(p.ledger, order[0]) {
        var ts := ProposerApplies(p1, rest);
        assert |ProposerLoop(p, order).ids| > |p.ids|;
        assert FirstBad(p.ledger, order) > 0;
      } else {
        assert p1.ledger == p.ledger && p1.ids == p.ids && p1.fault.None?;
        NothingListedIff(p1, rest);
        assert forall i :: 0 <= i < FirstBad(p.ledger, rest) ==> order[i + 1] == rest[i];
        assert forall i :: 0 < i < FirstBad(p.ledger, order) ==> order[i] == rest[i - 1];
      }
    }
  }

  // ---------- Supply over one call ----------

  /** One call of the proposer loop moves the supply by the self-transfers it applied: modulo 2^64 always,
      and exactly, with no recipient addition wrapping, while the result fits a uint64. */
  lemma ProposerSupply(l: Ledger, pool: Pool, order: seq<Transaction>)
    requires WellKeyed(l.accounts)
    ensures var r := ProposerLoop(StartProposer(l, pool), order).ledger;
            l.log <= r.log && SupplyMoved(l, r.log[|l.log|..], r)
  {
    var ts := ProposerApplies(StartProposer(l, pool), order);
    SupplyMoves(l, ts, ProposerLoop(StartProposer(l, pool), order).ledger);
  }

  lemma FollowerSupply(l: Ledger, pool: Pool, ids: seq<string>, remote: Pool)
    requires WellKeyed(l.accounts) && LogMatchesTrie(l) && PoolKeyed(pool) && RemoteKeyed(remote)
    ensures var r := FollowerLoop(Follower(l, pool, None), ids, remote).ledger;
            l.log <= r.log && SupplyMoved(l, r.log[|l.log|..], r)
  {
    var ts := FollowerApplies(Follower(l, pool, None), ids, remote);
    SupplyMoves(l, ts, FollowerLoop(Follower(l, pool, None), ids, remote).ledger);
  }

  ghost predicate SupplyMoved(l: Ledger, applied: seq<Transaction>, r: Ledger) {
    var before, after, minted := Supply(l.accounts), Supply(r.accounts), SelfAmounts(applied);
    && after % TWO_64 == (before + minted) % TWO_64
    && (before + minted < TWO_64 ==> after == before + minted && NeverWraps(l, applied))
    && (before < TWO_64 && (forall t :: t in applied ==> t.from != t.to) ==> after == before && NeverWraps(l, applied))
  }

  lemma SupplyMoves(l: Ledger, ts: seq<Transaction>, r: Ledger)
    requires WellKeyed(l.accounts) && Applies(l, ts, r)
    ensures l.log <= r.log && r.log[|l.log|..] == ts && SupplyMoved(l, ts, r)
  {
    AppliesGrows(l, ts, r);
    SupplyModulo(l, ts, r);
    if forall t :: t in ts ==> t.from != t.to {
      NothingMinted(ts);
    }
    if Supply(l.accounts) + SelfAmounts(ts) < TWO_64 {
      SupplyExactly(l, ts, r);
    }
  }

  lemma {:induction false} NothingMinted(ts: seq<Transaction>)
    requires forall t :: t in ts ==> t.from != t.to
    ensures SelfAmounts(ts) == 0
  {
    if ts != [] {
      assert ts[0] in ts && forall t :: t in ts[1..] ==> t in ts;
      NothingMinted(ts[1..]);
    }
  }
}
