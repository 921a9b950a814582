// Accounts, stored transactions, and the effect of one transfer.

module Ledgers {
  import opened Options
  import opened Words
  import opened FiniteSums
  import opened Transactions

  datatype Account = Account(address: string, balance: Word, publicKey: string, nonce: Word)

  /** The account trie and the transaction trie of one node. `log` is a history variable:
      the transactions that took effect, oldest first. */
  datatype Ledger = Ledger(accounts: map<string, Account>, txs: map<TxId, Transaction>, log: seq<Transaction>)

  /** An account is stored under its own address. */
  function SaveAccount(accounts: map<string, Account>, a: Account): map<string, Account> {
    accounts[a.address := a]
  }

  ghost predicate WellKeyed(accounts: map<string, Account>) {
    forall a :: a in accounts ==> accounts[a].address == a
  }

  predicate Knows(accounts: map<string, Account>, t: Transaction) {
    t.from in accounts && t.to in accounts
  }

  predicate Applicable(l: Ledger, t: Transaction) {
    Knows(l.accounts, t) && t.amount <= l.accounts[t.from].balance
  }

  /** Both accounts are loaded before either is saved, and the recipient is saved last: a
      self-transfer keeps the recipient copy, which has neither the debit nor the new nonce. */
  function Apply(l: Ledger, t: Transaction): Ledger
    requires Knows(l.accounts, t)
  {
    var sender, recipient := l.accounts[t.from], l.accounts[t.to];
    var debited := sender.(balance := Sub64(sender.balance, t.amount), nonce := Add64(sender.nonce, 1));
    var credited := recipient.(balance := Add64(recipient.balance, t.amount));
    Ledger(SaveAccount(SaveAccount(l.accounts, debited), credited), l.txs[t.id := t], l.log + [t])
  }

  // ---------- The account map as an order-free function of the stored transactions ----------

  function Received(a: string): Transaction -> int {
    (t: Transaction) => if t.to == a then t.amount else 0
  }

  function Sent(a: string): Transaction -> int {
    (t: Transaction) => if t.from == a && t.to != a then t.amount else 0
  }

  function SentCount(a: string): Transaction -> int {
    (t: Transaction) => if t.from == a && t.to != a then 1 else 0
  }

  ghost function SettleOne(account: Account, a: string, txs: map<TxId, Transaction>): Account {
    account.(balance := (account.balance + Sum(txs, Received(a)) - Sum(txs, Sent(a))) % TWO_64,
             nonce := (account.nonce + Sum(txs, SentCount(a))) % TWO_64)
  }

  /** The accounts that a set of transactions must lead to, whatever the order they were applied in. */
  ghost function Settle(initial: map<string, Account>, txs: map<TxId, Transaction>): map<string, Account> {
    map a | a in initial :: SettleOne(initial[a], a, txs)
  }

  /** What every reachable ledger satisfies: accounts settle the stored transactions, and the log
      lists each stored transaction exactly once. */
  ghost predicate Sound(initial: map<string, Account>, l: Ledger) {
    && l.accounts == Settle(initial, l.txs)
    && LogMatchesTrie(l)
    && (forall id :: id in l.txs ==> Knows(initial, l.txs[id]))
  }

  ghost predicate LogMatchesTrie(l: Ledger) {
    && (forall i, j :: 0 <= i < j < |l.log| ==> l.log[i].id != l.log[j].id)
    && (forall i :: 0 <= i < |l.log| ==> l.log[i].id in l.txs && l.txs[l.log[i].id] == l.log[i])
    && (forall id :: id in l.txs ==> l.txs[id].id == id && l.txs[id] in l.log)
  }

  function EmptyLedger(initial: map<string, Account>): Ledger {
    Ledger(initial, map[], [])
  }

  lemma EmptyIsSound(initial: map<string, Account>)
    ensures Sound(initial, EmptyLedger(initial))
  {
    forall a | a in initial
      ensures SettleOne(initial[a], a, map[]) == initial[a]
    {
    }
  }

  /** One more transaction posted to an account that stands at `a`. */
  ghost function Posted(account: Account, a: string, t: Transaction): Account {
    account.(balance := (account.balance + Received(a)(t) - Sent(a)(t)) % TWO_64,
             nonce := (account.nonce + SentCount(a)(t)) % TWO_64)
  }

  lemma SettleInsert(account: Account, a: string, txs: map<TxId, Transaction>, t: Transaction)
    requires t.id !in txs
    ensures SettleOne(account, a, txs[t.id := t]) ==
            Posted(SettleOne(account, a, txs), a, t)
  {
    SumInsert(txs, t.id, t, Received(a));
    SumInsert(txs, t.id, t, Sent(a));
    SumInsert(txs, t.id, t, SentCount(a));
    ModPlus(account.balance + Sum(txs, Received(a)) - Sum(txs, Sent(a)), Received(a)(t) - Sent(a)(t));
    ModPlus(account.nonce + Sum(txs, SentCount(a)), SentCount(a)(t));
  }

  /** What one transfer does to the account at `a`, read off the three roles `a` may have. */
  lemma ApplyAt(l: Ledger, t: Transaction, a: string)
    requires WellKeyed(l.accounts) && Knows(l.accounts, t) && a in l.accounts
    ensures a in Apply(l, t).accounts
    ensures Apply(l, t).accounts[a] == Posted(l.accounts[a], a, t)
  {
  }

  /** A covered transfer in plain numbers. Between two accounts the sender loses the amount and gains a nonce, the
      recipient gains the amount modulo 2^64, and nobody else changes; to oneself the amount is gained and nothing
      else. */
  lemma TransferPosts(l: Ledger, t: Transaction)
    requires WellKeyed(l.accounts) && Applicable(l, t)
    ensures var r, from, to := Apply(l, t).accounts, l.accounts[t.from], l.accounts[t.to];
            && r.Keys == l.accounts.Keys
            && (forall a :: a in l.accounts && a != t.from && a != t.to ==> r[a] == l.accounts[a])
            && (t.from != t.to ==>
                  r[t.from] == Account(from.address, from.balance - t.amount, from.publicKey,
                                       (from.nonce + 1) % TWO_64))
            && r[t.to] == Account(to.address, (to.balance + t.amount) % TWO_64, to.publicKey, to.nonce)
  {
  }

  lemma ApplySettles(initial: map<string, Account>, l: Ledger, t: Transaction)
    requires WellKeyed(initial) && l.accounts == Settle(initial, l.txs)
    requires Knows(initial, t) && t.id !in l.txs
    ensures Apply(l, t).accounts == Settle(initial, l.txs[t.id := t])
  {
    var r, txs := Apply(l, t).accounts, l.txs[t.id := t];
    assert WellKeyed(l.accounts);
    assert r.Keys == initial.Keys;
    forall a | a in initial
      ensures r[a] == SettleOne(initial[a], a, txs)
    {
      var was := l.accounts[a];
      assert was == SettleOne(initial[a], a, l.txs);
      assert r[a] == Posted(was, a, t) by { ApplyAt(l, t, a); }
      assert SettleOne(initial[a], a, txs) == Posted(was, a, t) by { SettleInsert(initial[a], a, l.txs, t); }
    }
  }

  lemma ApplyKeepsLog(l: Ledger, t: Transaction)
    requires LogMatchesTrie(l) && Knows(l.accounts, t) && t.id !in l.txs
    ensures LogMatchesTrie(Apply(l, t))
  {
    var r := Apply(l, t);
    assert r.log == l.log + [t] && r.txs == l.txs[t.id := t];
    forall id | id in r.txs
      ensures r.txs[id].id == id && r.txs[id] in r.log
    {
      if id == t.id {
        assert r.log[|l.log|] == t;
      } else {
        assert l.txs[id] in l.log;
      }
    }
  }

  lemma ApplySound(initial: map<string, Account>, l: Ledger, t: Transaction)
    requires WellKeyed(initial) && Sound(initial, l)
    requires Knows(initial, t) && t.id !in l.txs
    ensures Sound(initial, Apply(l, t))
  {
    ApplySettles(initial, l, t);
    ApplyKeepsLog(l, t);
    assert Apply(l, t).txs == l.txs[t.id := t];
  }

  /** Equal transaction tries force equal accounts, whatever the two histories were. */
  lemma EqualTransactionsEqualAccounts(initial: map<string, Account>, l: Ledger, r: Ledger)
    requires Sound(initial, l) && Sound(initial, r)
    requires l.txs == r.txs
    ensures l.accounts == r.accounts && |l.log| == |r.log| && multiset(l.log) == multiset(r.log)
  {
    LogAsMultiset(l);
    LogAsMultiset(r);
    assert multiset(l.log) == multiset(r.log);
    assert |multiset(l.log)| == |l.log| && |multiset(r.log)| == |r.log|;
  }

  lemma CountOnce(log: seq<Transaction>, i: nat)
    requires i < |log| && forall j, k :: 0 <= j < k < |log| ==> log[j].id != log[k].id
    ensures multiset(log)[log[i]] == 1
  {
    assert log == log[..i] + [log[i]] + log[i + 1..];
    assert log[i] !in log[..i] && log[i] !in log[i + 1..];
  }

  lemma LogAsMultiset(l: Ledger)
    requires LogMatchesTrie(l)
    ensures forall t :: multiset(l.log)[t] == if t.id in l.txs && l.txs[t.id] == t then 1 else 0
  {
    forall t
      ensures multiset(l.log)[t] == if t.id in l.txs && l.txs[t.id] == t then 1 else 0
    {
      if t in l.log {
        var i :| 0 <= i < |l.log| && l.log[i] == t;
        CountOnce(l.log, i);
      }
    }
  }

  // ---------- Runs of transfers ----------

  /** `r` is `l` after the transactions `ts`, in order, each new and covered at its turn. */
  ghost predicate Applies(l: Ledger, ts: seq<Transaction>, r: Ledger)
    decreases |ts|
  {
    if ts == [] then r == l
    else Applicable(l, ts[0]) && ts[0].id !in l.txs && Applies(Apply(l, ts[0]), ts[1..], r)
  }

  lemma ApplyRecords(l: Ledger, t: Transaction)
    requires Knows(l.accounts, t)
    ensures Apply(l, t).txs == l.txs[t.id := t] && Apply(l, t).log == l.log + [t]
  {
  }

  lemma {:induction false} AppliesGrows(l: Ledger, ts: seq<Transaction>, r: Ledger)
    requires Applies(l, ts, r)
    ensures r.log == l.log + ts
    ensures forall id :: id in l.txs ==> id in r.txs && r.txs[id] == l.txs[id]
    ensures forall id :: id in r.txs ==> id in l.txs || exists i :: 0 <= i < |ts| && ts[i].id == id
    ensures forall i :: 0 <= i < |ts| ==> ts[i].id in r.txs && r.txs[ts[i].id] == ts[i] && ts[i].id !in l.txs
    decreases |ts|
  {
    hide Apply;
    if ts != [] {
      var l1 := Apply(l, ts[0]);
      ApplyRecords(l, ts[0]);
      AppliesGrows(l1, ts[1..], r);
      assert l.log + [ts[0]] + ts[1..] == l.log + ts;
      forall id | id in r.txs && id !in l.txs
        ensures exists i :: 0 <= i < |ts| && ts[i].id == id
      {
        if id == ts[0].id {
        } else {
          var i :| 0 <= i < |ts[1..]| && ts[1..][i].id == id;
          assert ts[i + 1].id == id;
        }
      }
      forall i | 0 <= i < |ts|
        ensures ts[i].id in r.txs && r.txs[ts[i].id] == ts[i] && ts[i].id !in l.txs
      {
        if i > 0 {
          assert ts[1..][i - 1] == ts[i];
        } else {
          assert ts[0].id in l1.txs;
        }
      }
    }
  }

  lemma {:induction false} AppliesCompose(l: Ledger, ts: seq<Transaction>, m: Ledger, us: seq<Transaction>, r: Ledger)
    requires Applies(l, ts, m) && Applies(m, us, r)
    ensures Applies(l, ts + us, r)
    decreases |ts|
  {
    if ts == [] {
      assert ts + us == us;
    } else {
      AppliesCompose(Apply(l, ts[0]), ts[1..], m, us, r);
      assert (ts + us)[1..] == ts[1..] + us;
    }
  }

  lemma {:induction false} AppliesSound(initial: map<string, Account>, l: Ledger, ts: seq<Transaction>, r: Ledger)
    requires WellKeyed(initial) && Sound(initial, l) && Applies(l, ts, r)
    ensures Sound(initial, r)
    decreases |ts|
  {
    if ts != [] {
      ApplySound(initial, l, ts[0]);
      AppliesSound(initial, Apply(l, ts[0]), ts[1..], r);
    }
  }

  // ---------- Supply ----------

  function BalanceOf(): Account -> int {
    (a: Account) => a.balance
  }

  ghost function Supply(accounts: map<string, Account>): int {
    Sum(accounts, BalanceOf())
  }

  function SelfAmount(t: Transaction): nat {
    if t.from == t.to then t.amount else 0
  }

  function SelfAmounts(ts: seq<Transaction>): nat {
    if ts == [] then 0 else SelfAmount(ts[0]) + SelfAmounts(ts[1..])
  }

  /** No recipient addition passes 2^64 - 1 at its turn. */
  ghost predicate NeverWraps(l: Ledger, ts: seq<Transaction>)
    decreases |ts|
  {
    ts == [] ||
    (Knows(l.accounts, ts[0]) && l.accounts[ts[0].to].balance + ts[0].amount < TWO_64 &&
     NeverWraps(Apply(l, ts[0]), ts[1..]))
  }

  lemma ApplySupply(l: Ledger, t: Transaction)
    requires WellKeyed(l.accounts) && Applicable(l, t)
    ensures WellKeyed(Apply(l, t).accounts)
    ensures var wraps := l.accounts[t.to].balance + t.amount >= TWO_64;
            Supply(Apply(l, t).accounts) == Supply(l.accounts) + SelfAmount(t) - if wraps then TWO_64 else 0
    ensures l.accounts[t.to].balance + t.amount <= Supply(l.accounts) + SelfAmount(t)
  {
    var sender, recipient := l.accounts[t.from], l.accounts[t.to];
    var debited := sender.(balance := Sub64(sender.balance, t.amount), nonce := Add64(sender.nonce, 1));
    var credited := recipient.(balance := Add64(recipient.balance, t.amount));
    SumUpdate(l.accounts, t.from, debited, BalanceOf());
    SumUpdate(l.accounts[t.from := debited], t.to, credited, BalanceOf());
    if t.from == t.to {
      SumRemove(l.accounts, t.to, BalanceOf());
      SumNonNegative(l.accounts - {t.to}, BalanceOf());
    } else {
      SumAtLeastTwo(l.accounts, t.from, t.to, BalanceOf());
    }
  }

  /** One applied transfer keeps the supply exactly when it is no positive self-transfer and its recipient's
      balance does not wrap. */
  lemma ApplyConservesIff(l: Ledger, t: Transaction)
    requires WellKeyed(l.accounts) && Applicable(l, t)
    ensures Supply(Apply(l, t).accounts) == Supply(l.accounts) <==>
            (t.from != t.to || t.amount == 0) && l.accounts[t.to].balance + t.amount < TWO_64
  {
    ApplySupply(l, t);
  }

  /** With no bound on balances at all, supply moves by the self-transfers modulo 2^64. */
  lemma {:induction false} SupplyModulo(l: Ledger, ts: seq<Transaction>, r: Ledger)
    requires WellKeyed(l.accounts) && Applies(l, ts, r)
    ensures WellKeyed(r.accounts)
    ensures Supply(r.accounts) % TWO_64 == (Supply(l.accounts) + SelfAmounts(ts)) % TWO_64
    decreases |ts|
  {
    if ts != [] {
      ApplySupply(l, ts[0]);
      var l1 := Apply(l, ts[0]);
      SupplyModulo(l1, ts[1..], r);
      if l.accounts[ts[0].to].balance + ts[0].amount >= TWO_64 {
        ModShift(Supply(l1.accounts) + SelfAmounts(ts[1..]), 1);
      }
    }
  }

  /** Over any run the supply moves by exactly the minted amounts if and only if no addition wraps; a wrap
      loses coins that nothing later makes up for. */
  lemma {:induction false} SupplyMovesExactlyIff(l: Ledger, ts: seq<Transaction>, r: Ledger)
    requires WellKeyed(l.accounts) && Applies(l, ts, r)
    ensures Supply(r.accounts) <= Supply(l.accounts) + SelfAmounts(ts)
    ensures Supply(r.accounts) == Supply(l.accounts) + SelfAmounts(ts) <==> NeverWraps(l, ts)
    decreases |ts|
  {
    if ts != [] {
      ApplySupply(l, ts[0]);
      SupplyMovesExactlyIff(Apply(l, ts[0]), ts[1..], r);
    }
  }

  /** While supply plus minted amounts fits a uint64, supply moves by exactly the minted amounts
      and no addition wraps. */
  lemma {:induction false} SupplyExactly(l: Ledger, ts: seq<Transaction>, r: Ledger)
    requires WellKeyed(l.accounts) && Applies(l, ts, r)
    requires Supply(l.accounts) + SelfAmounts(ts) < TWO_64
    ensures Supply(r.accounts) == Supply(l.accounts) + SelfAmounts(ts)
    ensures NeverWraps(l, ts)
    decreases |ts|
  {
    if ts != [] {
      ApplySupply(l, ts[0]);
      SupplyExactly(Apply(l, ts[0]), ts[1..], r);
    }
  }
}
