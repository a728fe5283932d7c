/**
 The refund loop: what one leaf does to the vault, to the payees and to the outstanding claims, whichever
 of its token account or claim account was passed for each payee.
 */
module Refunds {
  import opened Binary
  import opened Results
  import opened Leaves
  import opened Ledger

  function Sum(amounts: seq<u64>): nat
  {
    if amounts == [] then 0 else Sum(amounts[..|amounts| - 1]) + amounts[|amounts| - 1]
  }

  // ---------- Outstanding claims ----------

  function ClaimOf(key: ClaimKey, c: ClaimAccount, mint: Pubkey): nat
  {
    if key.mint == mint then c.amount else 0
  }

  /** The sum of all claim accounts of a mint. */
  ghost function Outstanding(claims: map<ClaimKey, ClaimAccount>, mint: Pubkey): nat
    decreases |claims|
  {
    if claims == map[] then 0
    else
      var k :| k in claims;
      ClaimOf(k, claims[k], mint) + Outstanding(claims - {k}, mint)
  }

  lemma {:induction false} OutstandingSplit(claims: map<ClaimKey, ClaimAccount>, k: ClaimKey, mint: Pubkey)
    requires k in claims
    ensures Outstanding(claims, mint) == ClaimOf(k, claims[k], mint) + Outstanding(claims - {k}, mint)
    decreases |claims|
  {
    var first :| first in claims
              && Outstanding(claims, mint) == ClaimOf(first, claims[first], mint) + Outstanding(claims - {first}, mint);
    if first != k {
      OutstandingSplit(claims - {first}, k, mint);
      OutstandingSplit(claims - {k}, first, mint);
      assert claims - {first} - {k} == claims - {k} - {first};
    }
  }

  /** Opening, changing or closing one claim account changes the sum by that account. */
  lemma OutstandingUpdate(claims: map<ClaimKey, ClaimAccount>, k: ClaimKey, c: ClaimAccount, mint: Pubkey)
    ensures Outstanding(claims[k := c], mint) == ClaimOf(k, c, mint) + Outstanding(claims - {k}, mint)
    ensures k !in claims ==> claims - {k} == claims
  {
    OutstandingSplit(claims[k := c], k, mint);
    assert claims[k := c] - {k} == claims - {k};
  }

  lemma {:induction false} OutstandingZero(claims: map<ClaimKey, ClaimAccount>, mint: Pubkey)
    requires forall k :: k in claims ==> claims[k].amount == 0
    ensures Outstanding(claims, mint) == 0
    decreases |claims|
  {
    if claims != map[] {
      var k :| k in claims;
      OutstandingSplit(claims, k, mint);
      OutstandingZero(claims - {k}, mint);
    }
  }

  // ---------- Balances ----------

  function Balance(l: Ledger, key: Pubkey): nat
  {
    if key in l.tokens then l.tokens[key].amount else 0
  }

  function CurrentClaim(l: Ledger, key: ClaimKey): nat
  {
    if key in l.claims then l.claims[key].amount else 0
  }

  /** Only amounts differ: the same accounts, with the same mints, authorities and initializers. */
  ghost predicate SameShape(l: Ledger, m: Ledger)
  {
    && l.tokens.Keys == m.tokens.Keys
    && l.claims.Keys == m.claims.Keys
    && (forall k :: k in l.tokens ==> l.tokens[k] == m.tokens[k].(amount := l.tokens[k].amount))
    && (forall k :: k in l.claims ==> l.claims[k] == m.claims[k].(amount := l.claims[k].amount))
  }

  /** What the leaf's first n entries owe an account, duplicates included. */
  function Owed(leaf: RefundLeaf, payee: Pubkey, n: nat): nat
    requires EqualLengths(leaf) && n <= |leaf.refundAmounts|
  {
    if n == 0 then 0
    else Owed(leaf, payee, n - 1) + (if leaf.refundAccounts[n - 1] == payee then leaf.refundAmounts[n - 1] else 0)
  }

  /** The part of it that is put on the account's claim account. */
  function Deferred(leaf: RefundLeaf, infos: seq<AccountInfo>, payee: Pubkey, n: nat): nat
    requires EqualLengths(leaf) && n <= |leaf.refundAmounts|
  {
    if n == 0 then 0
    else Deferred(leaf, infos, payee, n - 1)
         + (if leaf.refundAccounts[n - 1] == payee && DeferredAt(infos, n - 1) then leaf.refundAmounts[n - 1] else 0)
  }

  lemma TransferBalances(l: Ledger, from: Pubkey, to: Pubkey, mint: Pubkey, authority: Pubkey, amount: u64)
    requires Transfer(l, from, to, mint, authority, amount).Ok?
    ensures var m := Transfer(l, from, to, mint, authority, amount).value;
            && SameShape(l, m) && m.claims == l.claims
            && l.tokens[from].mint == mint && l.tokens[to].mint == mint && l.tokens[from].authority == authority
            && forall k :: Balance(m, k) ==
                 Balance(l, k) - (if k == from then amount else 0) + (if k == to then amount else 0)
  {
  }

  /** One entry pays its payee, one way or the other, and nothing else but the vault changes. */
  lemma PayOneEffect(v: Vault, l: Ledger, infos: seq<AccountInfo>, i: nat, payee: Pubkey, amount: u64)
    requires PayOne(v, l, infos, i, payee, amount).Ok?
    ensures var m := PayOne(v, l, infos, i, payee, amount).value;
            && i < |infos| && SameShape(l, m)
            && (DeferredAt(infos, i) ==>
                  && ClaimKey(v.mint, payee) in l.claims
                  && m == l.(claims := l.claims[ClaimKey(v.mint, payee) := m.claims[ClaimKey(v.mint, payee)]]))
            && (!DeferredAt(infos, i) ==>
                  && m.claims == l.claims
                  && payee in l.tokens && l.tokens[payee].mint == v.mint
                  && v.key in l.tokens && l.tokens[v.key].mint == v.mint && l.tokens[v.key].authority == v.authority)
            && (forall k :: Balance(m, k) == Balance(l, k)
                 - (if k == v.key && !DeferredAt(infos, i) then amount else 0)
                 + (if k == payee && !DeferredAt(infos, i) then amount else 0))
            && (forall k :: CurrentClaim(m, k) == CurrentClaim(l, k)
                 + (if k == ClaimKey(v.mint, payee) && DeferredAt(infos, i) then amount else 0))
  {
    if !DeferredAt(infos, i) {
      TransferBalances(l, v.key, payee, v.mint, v.authority, amount);
    }
  }

  /** The claim total of the vault's mint grows by what is deferred; other mints' totals stay. */
  lemma PayOneOutstanding(v: Vault, l: Ledger, infos: seq<AccountInfo>, i: nat, payee: Pubkey, amount: u64,
                          mint: Pubkey)
    requires PayOne(v, l, infos, i, payee, amount).Ok?
    ensures Outstanding(PayOne(v, l, infos, i, payee, amount).value.claims, mint)
            == Outstanding(l.claims, mint) + (if mint == v.mint && DeferredAt(infos, i) then amount else 0)
  {
    PayOneEffect(v, l, infos, i, payee, amount);
    var m, k := PayOne(v, l, infos, i, payee, amount).value, ClaimKey(v.mint, payee);
    if DeferredAt(infos, i) {
      OutstandingSplit(l.claims, k, mint);
      OutstandingUpdate(l.claims, k, m.claims[k], mint);
      assert CurrentClaim(m, k) == CurrentClaim(l, k) + amount;
    }
  }

  lemma {:induction false} PayFirstShape(v: Vault, l: Ledger, leaf: RefundLeaf, infos: seq<AccountInfo>, n: nat)
    requires EqualLengths(leaf) && n <= |leaf.refundAmounts|
    requires PayFirst(v, l, leaf, infos, n).Ok?
    ensures SameShape(l, PayFirst(v, l, leaf, infos, n).value)
  {
    if n > 0 {
      PayFirstShape(v, l, leaf, infos, n - 1);
      PayOneEffect(v, PayFirst(v, l, leaf, infos, n - 1).value, infos, n - 1,
                   leaf.refundAccounts[n - 1], leaf.refundAmounts[n - 1]);
    }
  }

  /** A claim account gains exactly the deferred part of what the entries owe its token account. */
  lemma {:induction false} ClaimsGrow(v: Vault, l: Ledger, leaf: RefundLeaf, infos: seq<AccountInfo>, n: nat,
                                      key: ClaimKey)
    requires EqualLengths(leaf) && n <= |leaf.refundAmounts|
    requires PayFirst(v, l, leaf, infos, n).Ok?
    ensures CurrentClaim(PayFirst(v, l, leaf, infos, n).value, key)
            == CurrentClaim(l, key) + (if key.mint == v.mint then Deferred(leaf, infos, key.tokenAccount, n) else 0)
  {
    if n > 0 {
      ClaimsGrow(v, l, leaf, infos, n - 1, key);
      PayOneEffect(v, PayFirst(v, l, leaf, infos, n - 1).value, infos, n - 1,
                   leaf.refundAccounts[n - 1], leaf.refundAmounts[n - 1]);
    }
  }

  /**
   After the first n entries every account but the vault has gained, in its balance and its claim together,
   exactly what those entries owe it, duplicates included.
   */
  lemma {:induction false} PayeesArePaid(v: Vault, l: Ledger, leaf: RefundLeaf, infos: seq<AccountInfo>, n: nat,
                                         payee: Pubkey)
    requires EqualLengths(leaf) && n <= |leaf.refundAmounts|
    requires PayFirst(v, l, leaf, infos, n).Ok?
    requires payee != v.key
    ensures var m, key := PayFirst(v, l, leaf, infos, n).value, ClaimKey(v.mint, payee);
            Balance(m, payee) + CurrentClaim(m, key)
            == Balance(l, payee) + CurrentClaim(l, key) + Owed(leaf, payee, n)
  {
    if n > 0 {
      PayeesArePaid(v, l, leaf, infos, n - 1, payee);
      PayOneEffect(v, PayFirst(v, l, leaf, infos, n - 1).value, infos, n - 1,
                   leaf.refundAccounts[n - 1], leaf.refundAmounts[n - 1]);
    }
  }

  /** Accounts and claims of other mints are left alone. */
  lemma {:induction false} OtherMintsUntouched(v: Vault, l: Ledger, leaf: RefundLeaf, infos: seq<AccountInfo>, n: nat,
                                               key: Pubkey, mint: Pubkey)
    requires EqualLengths(leaf) && n <= |leaf.refundAmounts|
    requires PayFirst(v, l, leaf, infos, n).Ok?
    requires mint != v.mint
    ensures key in l.tokens && l.tokens[key].mint == mint ==>
              Balance(PayFirst(v, l, leaf, infos, n).value, key) == Balance(l, key)
    ensures Outstanding(PayFirst(v, l, leaf, infos, n).value.claims, mint) == Outstanding(l.claims, mint)
  {
    if n > 0 {
      var before := PayFirst(v, l, leaf, infos, n - 1).value;
      OtherMintsUntouched(v, l, leaf, infos, n - 1, key, mint);
      PayFirstShape(v, l, leaf, infos, n - 1);
      PayOneEffect(v, before, infos, n - 1, leaf.refundAccounts[n - 1], leaf.refundAmounts[n - 1]);
      PayOneOutstanding(v, before, infos, n - 1, leaf.refundAccounts[n - 1], leaf.refundAmounts[n - 1], mint);
    }
  }

  /** What the vault holds beyond the outstanding claims of its mint. */
  ghost function Net(v: Vault, l: Ledger): int
  {
    Balance(l, v.key) - Outstanding(l.claims, v.mint)
  }

  /** The refunds that the leaf's first n entries pay from the vault to the vault itself. */
  function SelfPaid(v: Vault, leaf: RefundLeaf, infos: seq<AccountInfo>, n: nat): int
    requires EqualLengths(leaf) && n <= |leaf.refundAmounts|
  {
    Owed(leaf, v.key, n) - Deferred(leaf, infos, v.key, n)
  }

  /**
   The vault, less the outstanding claims, falls by exactly the sum of the first n amounts, whichever of the
   token account or the claim account was passed for each; only a refund to the vault itself stays in.
   */
  lemma {:induction false} VaultPaysTheSum(v: Vault, l: Ledger, leaf: RefundLeaf, infos: seq<AccountInfo>, n: nat)
    requires EqualLengths(leaf) && n <= |leaf.refundAmounts|
    requires PayFirst(v, l, leaf, infos, n).Ok?
    ensures Net(v, PayFirst(v, l, leaf, infos, n).value)
            == Net(v, l) - Sum(leaf.refundAmounts[..n]) + SelfPaid(v, leaf, infos, n)
  {
    if n > 0 {
      var amounts := leaf.refundAmounts[..n];
      assert amounts[..n - 1] == leaf.refundAmounts[..n - 1];
      var before := PayFirst(v, l, leaf, infos, n - 1).value;
      var payee, amount := leaf.refundAccounts[n - 1], leaf.refundAmounts[n - 1];
      VaultPaysTheSum(v, l, leaf, infos, n - 1);
      PayOneEffect(v, before, infos, n - 1, payee, amount);
      PayOneOutstanding(v, before, infos, n - 1, payee, amount, v.mint);
    }
  }

  lemma {:induction false} NothingSelfPaid(v: Vault, leaf: RefundLeaf, infos: seq<AccountInfo>, n: nat)
    requires EqualLengths(leaf) && n <= |leaf.refundAmounts| && v.key !in leaf.refundAccounts
    ensures SelfPaid(v, leaf, infos, n) == 0
  {
    if n > 0 {
      NothingSelfPaid(v, leaf, infos, n - 1);
    }
  }

  /** However the payees are passed, two successful executions leave every payee and the vault equally well off. */
  lemma RefundsConfluent(v: Vault, l: Ledger, leaf: RefundLeaf, infos: seq<AccountInfo>, others: seq<AccountInfo>,
                         payee: Pubkey)
    requires EqualLengths(leaf) && v.key !in leaf.refundAccounts
    requires PayFirst(v, l, leaf, infos, |leaf.refundAmounts|).Ok?
    requires PayFirst(v, l, leaf, others, |leaf.refundAmounts|).Ok?
    ensures var p := PayFirst(v, l, leaf, infos, |leaf.refundAmounts|).value;
            var q := PayFirst(v, l, leaf, others, |leaf.refundAmounts|).value;
            && Net(v, p) == Net(v, q) == Net(v, l) - Sum(leaf.refundAmounts)
            && (payee != v.key ==>
                  Balance(p, payee) + CurrentClaim(p, ClaimKey(v.mint, payee))
                  == Balance(q, payee) + CurrentClaim(q, ClaimKey(v.mint, payee)))
  {
    var n := |leaf.refundAmounts|;
    assert leaf.refundAmounts[..n] == leaf.refundAmounts;
    NothingSelfPaid(v, leaf, infos, n);
    NothingSelfPaid(v, leaf, others, n);
    VaultPaysTheSum(v, l, leaf, infos, n);
    VaultPaysTheSum(v, l, leaf, others, n);
    if payee != v.key {
      PayeesArePaid(v, l, leaf, infos, n, payee);
      PayeesArePaid(v, l, leaf, others, n, payee);
    }
  }
}
