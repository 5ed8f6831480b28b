/**
 * The accounting relation the platform maintains: a user's materialised balance
 * `saldo_total` equals the sum of the amounts of that user's ledger entries, leaving out
 * entries whose redemption was rejected (their hold was refunded).
 */
module Ledger {
  import opened Models

  /** What entry `t` adds to the balance of user `uid`. */
  function Contribution(t: Transaction, uid: Id): int
  {
    if t.userId == uid && t.status != Reprovado then t.pontos else 0
  }

  /** What the entry stored under id `k` (if any) adds to the balance of `uid`. */
  function ContributionAt(txs: map<Id, Transaction>, k: Id, uid: Id): int
  {
    if k in txs then Contribution(txs[k], uid) else 0
  }

  /** The balance of `uid` implied by the entries with ids below `n`. */
  function Balance(txs: map<Id, Transaction>, uid: Id, n: nat): int
  {
    if n == 0 then 0 else Balance(txs, uid, n - 1) + ContributionAt(txs, n - 1, uid)
  }

  /**
   * A consistent store: ids come from the sequence, every entry has an owner, every
   * stored value fits its column, and every balance is the sum of its entries.
   */
  ghost predicate Valid(s: Store)
  {
    && (forall uid :: uid in s.users ==> FitsInteger(s.users[uid].saldoTotal))
    && (forall k :: k in s.transactions ==> EntryFits(s.transactions[k]))
    && (forall k :: k in s.transactions ==> k < s.nextTxId)
    && (forall k :: k in s.transactions ==> s.transactions[k].userId in s.users)
    && (forall uid :: uid in s.users ==> s.users[uid].saldoTotal == Balance(s.transactions, uid, s.nextTxId))
  }

  /** Two ledgers that agree entry by entry below `n` imply the same balance. */
  lemma {:induction false} BalanceFrame(txs: map<Id, Transaction>, txs': map<Id, Transaction>, uid: Id, n: nat)
    requires forall k :: 0 <= k < n ==> ContributionAt(txs, k, uid) == ContributionAt(txs', k, uid)
    ensures Balance(txs, uid, n) == Balance(txs', uid, n)
  {
    if n > 0 {
      BalanceFrame(txs, txs', uid, n - 1);
    }
  }

  /** Replacing the entry under `k < n` changes the balance by the difference of contributions. */
  lemma {:induction false} BalanceUpdate(txs: map<Id, Transaction>, k: Id, t: Transaction, uid: Id, n: nat)
    requires k < n
    ensures Balance(txs[k := t], uid, n) == Balance(txs, uid, n) - ContributionAt(txs, k, uid) + Contribution(t, uid)
  {
    if n - 1 == k {
      BalanceFrame(txs, txs[k := t], uid, n - 1);
    } else {
      BalanceUpdate(txs, k, t, uid, n - 1);
    }
  }

  /** Appending entry `t` under the next id adds exactly its contribution. */
  lemma BalanceAppend(txs: map<Id, Transaction>, t: Transaction, uid: Id, n: nat)
    requires forall k :: k in txs ==> k < n
    ensures Balance(txs[n := t], uid, n + 1) == Balance(txs, uid, n) + Contribution(t, uid)
  {
    BalanceFrame(txs, txs[n := t], uid, n);
  }
}
