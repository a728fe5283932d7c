/**
 Leaf executions commute. The order of a list of executions leaves no trace, provided no refund is paid from
 the vault to the vault itself; with such refunds, exactly when the vault still covers them in the other order.
 */
module Commutation {
  import opened Binary
  import opened Results
  import opened Leaves
  import opened Ledger
  import opened Spoke
  import opened Refunds
  import opened Folds
  import Bitmap
  import Merkle

  // ---------- Single payments ----------

  datatype Payment = Payment(v: Vault, infos: seq<AccountInfo>, i: nat, payee: Pubkey, amount: u64)

  function Pay(l: Ledger, p: Payment): Result<Ledger, Error>
  {
    PayOne(p.v, l, p.infos, p.i, p.payee, p.amount)
  }

  function PayList(l: Ledger, ps: seq<Payment>): Result<Ledger, Error>
  {
    if ps == [] then Ok(l)
    else
      var before :- PayList(l, ps[..|ps| - 1]);
      Pay(before, ps[|ps| - 1])
  }

  /** The vault pays itself directly. */
  predicate ToSelf(p: Payment)
  {
    p.payee == p.v.key && !DeferredAt(p.infos, p.i)
  }

  /** What leaves a vault for other accounts. */
  function Outflow(ps: seq<Payment>, key: Pubkey): nat
  {
    if ps == [] then 0
    else
      var p := ps[|ps| - 1];
      Outflow(ps[..|ps| - 1], key)
      + (if p.v.key == key && p.payee != key && !DeferredAt(p.infos, p.i) then p.amount else 0)
  }

  /** A mint has one vault. */
  ghost predicate OneVault(p: Payment, q: Payment)
  {
    p.v.mint == q.v.mint ==> p.v == q.v
  }

  /** The ledger has the money, and the room, for the payment. */
  predicate Affords(l: Ledger, p: Payment)
  {
    if DeferredAt(p.infos, p.i) then CurrentClaim(l, ClaimKey(p.v.mint, p.payee)) + p.amount <= U64_MAX
    else
      && p.amount <= Balance(l, p.v.key)
      && (p.payee == p.v.key || Balance(l, p.payee) + p.amount <= U64_MAX)
  }

  /** A payment that went through goes through on any ledger of the same shape that affords it. */
  lemma PayElsewhere(l: Ledger, m: Ledger, p: Payment)
    requires Pay(l, p).Ok? && SameShape(l, m)
    ensures Pay(m, p).Ok? <==> Affords(m, p)
    ensures Affords(l, p)
  {
    if DeferredAt(p.infos, p.i) {
      var k := ClaimKey(p.v.mint, p.payee);
      assert m.claims[k] == l.claims[k].(amount := m.claims[k].amount);
    } else {
      assert m.tokens[p.v.key] == l.tokens[p.v.key].(amount := m.tokens[p.v.key].amount);
      assert m.tokens[p.payee] == l.tokens[p.payee].(amount := m.tokens[p.payee].amount);
    }
  }

  /** A ledger's effect of a payment, as in PayOneEffect. */
  ghost predicate Effect(l: Ledger, p: Payment, m: Ledger)
  {
    && SameShape(l, m)
    && (!DeferredAt(p.infos, p.i) ==>
          && p.payee in l.tokens && l.tokens[p.payee].mint == p.v.mint
          && p.v.key in l.tokens && l.tokens[p.v.key].mint == p.v.mint)
    && (forall k :: Balance(m, k) == Balance(l, k)
         - (if k == p.v.key && !DeferredAt(p.infos, p.i) then p.amount else 0)
         + (if k == p.payee && !DeferredAt(p.infos, p.i) then p.amount else 0))
    && (forall k :: CurrentClaim(m, k) == CurrentClaim(l, k)
         + (if k == ClaimKey(p.v.mint, p.payee) && DeferredAt(p.infos, p.i) then p.amount else 0))
  }

  lemma PayHasEffect(l: Ledger, p: Payment)
    requires Pay(l, p).Ok?
    ensures Effect(l, p, Pay(l, p).value)
  {
    PayOneEffect(p.v, l, p.infos, p.i, p.payee, p.amount);
  }

  /** A ledger is its shape and its amounts. */
  lemma SameLedger(l: Ledger, m: Ledger)
    requires SameShape(l, m)
    requires forall k :: Balance(l, k) == Balance(m, k)
    requires forall k :: CurrentClaim(l, k) == CurrentClaim(m, k)
    ensures l == m
  {
    forall k | k in l.tokens
      ensures l.tokens[k] == m.tokens[k]
    {
      assert Balance(l, k) == Balance(m, k);
    }
    forall k | k in l.claims
      ensures l.claims[k] == m.claims[k]
    {
      assert CurrentClaim(l, k) == CurrentClaim(m, k);
    }
  }

  /** If p then q can be afforded, and p is not a payment to the vault itself, so can q then p. */
  lemma AffordsSwap(l: Ledger, p: Payment, q: Payment, l1: Ledger, l2: Ledger)
    requires OneVault(p, q) && !ToSelf(p)
    requires Affords(l, p) && Effect(l, p, l1) && Affords(l1, q) && Effect(l1, q, l2)
    ensures Affords(l, q)
    ensures forall m :: Effect(l, q, m) ==> Affords(m, p)
  {
    assert Balance(l1, q.v.key) >= 0 && Balance(l2, p.v.key) >= 0 && Balance(l2, p.payee) >= 0;
  }

  lemma PaymentsSwap(l: Ledger, p: Payment, q: Payment)
    requires OneVault(p, q) && !ToSelf(p)
    requires Pay(l, p).Ok? && Pay(Pay(l, p).value, q).Ok?
    ensures Pay(l, q).Ok? && Pay(Pay(l, q).value, p) == Pay(Pay(l, p).value, q)
  {
    var l1 := Pay(l, p).value;
    var l2 := Pay(l1, q).value;
    PayHasEffect(l, p);
    PayHasEffect(l1, q);
    PayElsewhere(l, l, p);
    PayElsewhere(l1, l, q);
    AffordsSwap(l, p, q, l1, l2);
    var m1 := Pay(l, q).value;
    PayHasEffect(l, q);
    PayElsewhere(l, m1, p);
    PayHasEffect(m1, p);
    EffectsCommute(l, p, q, l1, l2, m1, Pay(m1, p).value);
  }

  lemma EffectsCommute(l: Ledger, p: Payment, q: Payment, l1: Ledger, l2: Ledger, m1: Ledger, m2: Ledger)
    requires Effect(l, p, l1) && Effect(l1, q, l2)
    requires Effect(l, q, m1) && Effect(m1, p, m2)
    ensures l2 == m2
  {
    SameLedger(l2, m2);
  }

  lemma SelfPaymentIsNothing(l: Ledger, p: Payment)
    requires ToSelf(p) && Pay(l, p).Ok?
    ensures Pay(l, p).value == l
  {
  }

  // ---------- Lists of payments ----------

  lemma {:induction false} PayListAppend(l: Ledger, ps: seq<Payment>, qs: seq<Payment>)
    ensures PayList(l, ps + qs) == if PayList(l, ps).Ok? then PayList(PayList(l, ps).value, qs) else PayList(l, ps)
  {
    if qs == [] {
      assert ps + qs == ps;
    } else {
      assert (ps + qs)[..|ps + qs| - 1] == ps + qs[..|qs| - 1];
      PayListAppend(l, ps, qs[..|qs| - 1]);
    }
  }

  lemma PayListCons(l: Ledger, p: Payment, qs: seq<Payment>)
    ensures PayList(l, [p] + qs) == if Pay(l, p).Ok? then PayList(Pay(l, p).value, qs) else Err(Pay(l, p).error)
  {
    PayListAppend(l, [p], qs);
    assert PayList(l, []) == Ok(l);
    assert [p][..0] == [];
  }

  lemma PayListSnoc(l: Ledger, ps: seq<Payment>, q: Payment)
    ensures PayList(l, ps + [q])
            == if PayList(l, ps).Ok? then Pay(PayList(l, ps).value, q) else Err(PayList(l, ps).error)
  {
    assert (ps + [q])[..|ps|] == ps;
  }

  lemma {:induction false} PayListShape(l: Ledger, ps: seq<Payment>)
    requires PayList(l, ps).Ok?
    ensures SameShape(l, PayList(l, ps).value)
  {
    if ps != [] {
      PayListShape(l, ps[..|ps| - 1]);
      PayHasEffect(PayList(l, ps[..|ps| - 1]).value, ps[|ps| - 1]);
    }
  }

  /** A payment to another account moves behind any list. */
  lemma {:induction false} OutsideMovesAcross(l: Ledger, p: Payment, qs: seq<Payment>)
    requires !ToSelf(p) && (forall q :: q in qs ==> OneVault(p, q))
    requires PayList(l, [p] + qs).Ok?
    ensures PayList(l, qs + [p]) == PayList(l, [p] + qs)
  {
    if qs == [] {
      assert [p] + qs == qs + [p];
    } else {
      var init, q := qs[..|qs| - 1], qs[|qs| - 1];
      assert [p] + qs == ([p] + init) + [q];
      assert qs == init + [q];
      PayListSnoc(l, [p] + init, q);
      OutsideMovesAcross(l, p, init);
      PayListSnoc(l, init, p);
      PaymentsSwap(PayList(l, init).value, p, q);
      PayListSnoc(l, init, q);
      PayListSnoc(l, qs, p);
    }
  }

  /** Behind a list, any payment still goes through, unless the list left too little to pay the vault itself. */
  lemma MovesAcross(l: Ledger, p: Payment, qs: seq<Payment>)
    requires forall q :: q in qs ==> OneVault(p, q)
    requires PayList(l, [p] + qs).Ok?
    ensures PayList(l, qs).Ok?
    ensures PayList(l, qs + [p]).Ok? <==> (ToSelf(p) ==> p.amount <= Balance(PayList(l, qs).value, p.v.key))
    ensures PayList(l, qs + [p]).Ok? ==> PayList(l, qs + [p]) == PayList(l, [p] + qs)
  {
    PayListCons(l, p, qs);
    PayListSnoc(l, qs, p);
    if ToSelf(p) {
      SelfPaymentIsNothing(l, p);
      var m := PayList(l, qs).value;
      PayListShape(l, qs);
      PayElsewhere(l, m, p);
      if Pay(m, p).Ok? {
        SelfPaymentIsNothing(m, p);
      }
    } else {
      OutsideMovesAcross(l, p, qs);
    }
  }

  /** A vault's balance falls by its outflow. */
  lemma {:induction false} VaultFalls(l: Ledger, ps: seq<Payment>, v: Vault)
    requires PayList(l, ps).Ok?
    requires v.key in l.tokens && l.tokens[v.key].mint == v.mint
    requires forall p :: p in ps && p.v.mint == v.mint ==> p.v == v
    ensures Balance(PayList(l, ps).value, v.key) == Balance(l, v.key) - Outflow(ps, v.key)
  {
    if ps != [] {
      var init := ps[..|ps| - 1];
      VaultFalls(l, init, v);
      PayListShape(l, init);
      PayHasEffect(PayList(l, init).value, ps[|ps| - 1]);
    }
  }

  /** Every payment of the list that goes from the vault to the vault is covered by what is left of a budget. */
  predicate SelfPaymentsCovered(ps: seq<Payment>, budget: int)
  {
    ps == []
    || (var init, p := ps[..|ps| - 1], ps[|ps| - 1];
        && SelfPaymentsCovered(init, budget)
        && (ToSelf(p) ==> p.amount <= budget - Outflow(init, p.v.key)))
  }

  ghost predicate VaultsAgree(v: Vault, ps: seq<Payment>, qs: seq<Payment>)
  {
    && (forall p :: p in ps ==> p.v == v)
    && (forall q :: q in qs ==> q.v.mint == v.mint ==> q.v == v)
  }

  /** The two orders, when both go through, agree; the second goes through exactly when the first's are covered. */
  ghost predicate Swaps(l: Ledger, key: Pubkey, ps: seq<Payment>, qs: seq<Payment>)
  {
    && PayList(l, qs).Ok?
    && (PayList(l, qs + ps).Ok? <==> SelfPaymentsCovered(ps, Balance(l, key) - Outflow(qs, key)))
    && (PayList(l, qs + ps).Ok? ==> PayList(l, qs + ps) == PayList(l, ps + qs))
  }

  /**
   A list of payments from one vault moves behind another list, with the same result, exactly when the vault
   still covers its payments to itself once the other list is paid.
   */
  lemma {:induction false} ListsSwap(l: Ledger, v: Vault, ps: seq<Payment>, qs: seq<Payment>)
    requires v.key in l.tokens && l.tokens[v.key].mint == v.mint && VaultsAgree(v, ps, qs)
    requires PayList(l, ps + qs).Ok?
    ensures Swaps(l, v.key, ps, qs)
  {
    if ps == [] {
      assert ps + qs == qs && qs + ps == qs;
    } else {
      var init, p := ps[..|ps| - 1], ps[|ps| - 1];
      assert ps == init + [p];
      assert p in ps && p.v == v;
      LastMovesAcross(l, v, init, p, qs);
      ListsSwap(l, v, init, qs);
      SwapsSnoc(l, v, init, p, qs);
    }
  }

  lemma SwapsSnoc(l: Ledger, v: Vault, init: seq<Payment>, p: Payment, qs: seq<Payment>)
    requires p.v == v && PayList(l, init + qs).Ok? && Swaps(l, v.key, init, qs)
    requires var next := Pay(PayList(l, init + qs).value, p);
             && (next.Ok? <==>
                   (ToSelf(p) ==> p.amount <= Balance(l, v.key) - Outflow(qs, v.key) - Outflow(init, v.key)))
             && (next.Ok? ==> next == PayList(l, init + [p] + qs))
    ensures Swaps(l, v.key, init + [p], qs)
  {
    var ps := init + [p];
    assert ps[..|ps| - 1] == init;
    CoveredSnoc(ps, v, Balance(l, v.key) - Outflow(qs, v.key));
    SwappedSnoc(l, init, p, qs);
  }

  lemma SwappedSnoc(l: Ledger, init: seq<Payment>, p: Payment, qs: seq<Payment>)
    requires PayList(l, init + qs).Ok?
    requires PayList(l, qs + init).Ok? ==> PayList(l, qs + init) == PayList(l, init + qs)
    ensures PayList(l, qs + (init + [p]))
            == if PayList(l, qs + init).Ok? then Pay(PayList(l, init + qs).value, p)
               else Err(PayList(l, qs + init).error)
  {
    assert qs + (init + [p]) == (qs + init) + [p];
    PayListSnoc(l, qs + init, p);
  }

  lemma CoveredSnoc(ps: seq<Payment>, v: Vault, budget: int)
    requires ps != [] && ps[|ps| - 1].v == v
    ensures var init, p := ps[..|ps| - 1], ps[|ps| - 1];
            SelfPaymentsCovered(ps, budget)
            <==> SelfPaymentsCovered(init, budget) && (ToSelf(p) ==> p.amount <= budget - Outflow(init, v.key))
  {
  }

  /** The step: the last payment moves behind the other list, with what the vault then holds. */
  lemma LastMovesAcross(l: Ledger, v: Vault, init: seq<Payment>, p: Payment, qs: seq<Payment>)
    requires v.key in l.tokens && l.tokens[v.key].mint == v.mint && VaultsAgree(v, init + [p], qs)
    requires PayList(l, init + [p] + qs).Ok?
    ensures PayList(l, init + qs).Ok?
    ensures var m := PayList(l, init + qs).value;
            && (Pay(m, p).Ok? <==>
                  (ToSelf(p) ==> p.amount <= Balance(l, v.key) - Outflow(qs, v.key) - Outflow(init, v.key)))
            && (Pay(m, p).Ok? ==> Pay(m, p) == PayList(l, init + [p] + qs))
  {
    assert p in init + [p] && forall q :: q in init ==> q in init + [p];
    assert init + [p] + qs == init + ([p] + qs);
    PayListAppend(l, init, [p] + qs);
    PayListAppend(l, init, qs);
    var k := PayList(l, init).value;
    MovesAcross(k, p, qs);
    PayListSnoc(k, qs, p);
    VaultFalls(l, init + qs, v);
    OutflowAppend(init, qs, v.key);
  }

  lemma {:induction false} OutflowAppend(ps: seq<Payment>, qs: seq<Payment>, key: Pubkey)
    ensures Outflow(ps + qs, key) == Outflow(ps, key) + Outflow(qs, key)
  {
    if qs == [] {
      assert ps + qs == ps;
    } else {
      assert (ps + qs)[..|ps + qs| - 1] == ps + qs[..|qs| - 1];
      OutflowAppend(ps, qs[..|qs| - 1], key);
    }
  }

  // ---------- Leaf executions ----------

  datatype LeafRun = LeafRun(signer: Pubkey, bundleId: u32, leaf: RefundLeaf, proof: seq<Hash>, infos: seq<AccountInfo>)

  function Execute(env: Env, a: Accounts, x: LeafRun): Result<Accounts, Error>
  {
    var post :- ExecuteRelayerRefundLeaf(env, a, x.signer, x.bundleId, x.leaf, x.proof, x.infos);
    Ok(post.accounts)
  }

  /** x and then y. */
  function ExecuteBoth(env: Env, a: Accounts, x: LeafRun, y: LeafRun): Result<Accounts, Error>
  {
    var first :- Execute(env, a, x);
    Execute(env, first, y)
  }

  predicate SameLeafId(x: LeafRun, y: LeafRun)
  {
    x.bundleId == y.bundleId && x.leaf.leafId == y.leaf.leafId
  }

  function PaymentsOf(env: Env, x: LeafRun, n: nat): (ps: seq<Payment>)
    requires EqualLengths(x.leaf) && n <= |x.leaf.refundAmounts|
    ensures |ps| == n
    ensures forall i :: 0 <= i < n ==>
      ps[i] == Payment(VaultFor(env, x.leaf.mint), x.infos, i, x.leaf.refundAccounts[i], x.leaf.refundAmounts[i])
  {
    seq(n, i requires 0 <= i < n =>
      Payment(VaultFor(env, x.leaf.mint), x.infos, i, x.leaf.refundAccounts[i], x.leaf.refundAmounts[i]))
  }

  function AllPayments(env: Env, x: LeafRun): seq<Payment>
    requires EqualLengths(x.leaf)
  {
    PaymentsOf(env, x, |x.leaf.refundAmounts|)
  }

  lemma {:induction false} LoopIsPayList(env: Env, l: Ledger, x: LeafRun, n: nat)
    requires EqualLengths(x.leaf) && n <= |x.leaf.refundAmounts|
    ensures PayFirst(VaultFor(env, x.leaf.mint), l, x.leaf, x.infos, n) == PayList(l, PaymentsOf(env, x, n))
  {
    if n > 0 {
      LoopIsPayList(env, l, x, n - 1);
      assert PaymentsOf(env, x, n)[..n - 1] == PaymentsOf(env, x, n - 1);
    }
  }

  /** The checks that a leaf execution makes besides its payments. */
  ghost predicate Admitted(env: Env, a: Accounts, x: LeafRun)
  {
    && x.bundleId in a.bundles
    && VaultOk(env, a.ledger, x.leaf.mint)
    && Merkle.ProcessProof(env.keccak, env.keccak(RefundLeafBytes(x.leaf)), x.proof)
       == a.bundles[x.bundleId].relayerRefundRoot
    && x.leaf.chainId == a.state.chainId
    && !Bitmap.IsClaimed(a.bundles[x.bundleId].claimedBitmap, x.leaf.leafId)
    && EqualLengths(x.leaf)
    && PendingToHubPool(a, x.leaf.mint) + x.leaf.amountToReturn <= U64_MAX
  }

  /** Everything but the ledger after an execution. */
  function Marked(a: Accounts, x: LeafRun, ledger: Ledger): Accounts
    requires x.bundleId in a.bundles
    requires PendingToHubPool(a, x.leaf.mint) + x.leaf.amountToReturn <= U64_MAX
  {
    a.(ledger := ledger,
       bundles := a.bundles[x.bundleId := MarkClaimed(a.bundles[x.bundleId], x.leaf.leafId)],
       liability := a.liability[x.leaf.mint := PendingToHubPool(a, x.leaf.mint) + x.leaf.amountToReturn])
  }

  lemma ExecuteUnfolds(env: Env, a: Accounts, x: LeafRun)
    ensures Execute(env, a, x).Ok? <==>
              && Admitted(env, a, x)
              && PayFirst(VaultFor(env, x.leaf.mint), a.ledger, x.leaf, x.infos, |x.leaf.refundAmounts|).Ok?
    ensures Execute(env, a, x).Ok? ==>
              Execute(env, a, x).value
              == Marked(a, x, PayFirst(VaultFor(env, x.leaf.mint), a.ledger, x.leaf, x.infos,
                                       |x.leaf.refundAmounts|).value)
  {
  }

  lemma ExecuteIs(env: Env, a: Accounts, x: LeafRun)
    ensures Execute(env, a, x).Ok? <==> Admitted(env, a, x) && PayList(a.ledger, AllPayments(env, x)).Ok?
    ensures Execute(env, a, x).Ok? ==>
              Execute(env, a, x).value == Marked(a, x, PayList(a.ledger, AllPayments(env, x)).value)
  {
    ExecuteUnfolds(env, a, x);
    if EqualLengths(x.leaf) {
      LoopIsPayList(env, a.ledger, x, |x.leaf.refundAmounts|);
    }
  }

  /** The checks do not depend on the other execution's having gone first. */
  lemma AdmittedSwap(env: Env, a: Accounts, x: LeafRun, y: LeafRun, l: Ledger, m: Ledger)
    requires !SameLeafId(x, y)
    requires Admitted(env, a, x) && SameShape(a.ledger, l) && Admitted(env, Marked(a, x, l), y)
    requires SameShape(a.ledger, m)
    ensures Admitted(env, a, y) && Admitted(env, Marked(a, y, m), x)
  {
    var vx, vy := env.ata(env.statePda, x.leaf.mint), env.ata(env.statePda, y.leaf.mint);
    assert a.ledger.tokens[vx] == m.tokens[vx].(amount := a.ledger.tokens[vx].amount);
    assert a.ledger.tokens[vy] == l.tokens[vy].(amount := a.ledger.tokens[vy].amount);
    BundlesSwap(a, x, y);
    LiabilitySwap(a, x, y);
  }

  lemma MarkedSwap(a: Accounts, x: LeafRun, y: LeafRun, l: Ledger, m: Ledger, n: Ledger)
    requires x.bundleId in a.bundles && y.bundleId in a.bundles && !SameLeafId(x, y)
    requires PendingToHubPool(a, x.leaf.mint) + x.leaf.amountToReturn <= U64_MAX
    requires PendingToHubPool(Marked(a, x, l), y.leaf.mint) + y.leaf.amountToReturn <= U64_MAX
    ensures PendingToHubPool(a, y.leaf.mint) + y.leaf.amountToReturn <= U64_MAX
    ensures PendingToHubPool(Marked(a, y, m), x.leaf.mint) + x.leaf.amountToReturn <= U64_MAX
    ensures Marked(Marked(a, y, m), x, n) == Marked(Marked(a, x, l), y, n)
  {
    LiabilitySwap(a, x, y);
    BundlesSwap(a, x, y);
    var ax, ay := Marked(a, x, l), Marked(a, y, m);
    assert Marked(ax, y, n).bundles == Marked(ay, x, n).bundles;
    assert Marked(ax, y, n).liability == Marked(ay, x, n).liability;
  }

  lemma BundlesSwap(a: Accounts, x: LeafRun, y: LeafRun)
    requires x.bundleId in a.bundles && y.bundleId in a.bundles && !SameLeafId(x, y)
    ensures var afterX := a.bundles[x.bundleId := MarkClaimed(a.bundles[x.bundleId], x.leaf.leafId)];
            var afterY := a.bundles[y.bundleId := MarkClaimed(a.bundles[y.bundleId], y.leaf.leafId)];
            && afterX[y.bundleId := MarkClaimed(afterX[y.bundleId], y.leaf.leafId)]
               == afterY[x.bundleId := MarkClaimed(afterY[x.bundleId], x.leaf.leafId)]
            && (Bitmap.IsClaimed(afterX[y.bundleId].claimedBitmap, y.leaf.leafId)
                <==> Bitmap.IsClaimed(a.bundles[y.bundleId].claimedBitmap, y.leaf.leafId))
            && (Bitmap.IsClaimed(afterY[x.bundleId].claimedBitmap, x.leaf.leafId)
                <==> Bitmap.IsClaimed(a.bundles[x.bundleId].claimedBitmap, x.leaf.leafId))
  {
    if x.bundleId == y.bundleId {
      var b := a.bundles[x.bundleId];
      Bitmap.SetClaimedCommutes(b.claimedBitmap, b.dataLen, x.leaf.leafId, y.leaf.leafId);
      ClaimedElsewhere(b.claimedBitmap, x.leaf.leafId, y.leaf.leafId);
      ClaimedElsewhere(b.claimedBitmap, y.leaf.leafId, x.leaf.leafId);
    }
  }

  lemma ClaimedElsewhere(bitmap: seq<bv8>, i: u32, j: u32)
    requires i != j
    ensures Bitmap.IsClaimed(Bitmap.SetClaimed(bitmap, i), j) <==> Bitmap.IsClaimed(bitmap, j)
  {
    Bitmap.SetClaimedAdds(bitmap, i);
    assert j in Bitmap.Ids(Bitmap.SetClaimed(bitmap, i)) <==> j in Bitmap.Ids(bitmap);
  }

  lemma LiabilitySwap(a: Accounts, x: LeafRun, y: LeafRun)
    requires PendingToHubPool(a, x.leaf.mint) + x.leaf.amountToReturn <= U64_MAX
    requires var ax := a.(liability := a.liability[x.leaf.mint :=
                            PendingToHubPool(a, x.leaf.mint) + x.leaf.amountToReturn]);
             PendingToHubPool(ax, y.leaf.mint) + y.leaf.amountToReturn <= U64_MAX
    ensures PendingToHubPool(a, y.leaf.mint) + y.leaf.amountToReturn <= U64_MAX
    ensures var px, py := x.leaf.amountToReturn, y.leaf.amountToReturn;
            var ax := a.(liability := a.liability[x.leaf.mint := PendingToHubPool(a, x.leaf.mint) + px]);
            var ay := a.(liability := a.liability[y.leaf.mint := PendingToHubPool(a, y.leaf.mint) + py]);
            && PendingToHubPool(ay, x.leaf.mint) + px <= U64_MAX
            && ax.liability[y.leaf.mint := PendingToHubPool(ax, y.leaf.mint) + py]
               == ay.liability[x.leaf.mint := PendingToHubPool(ay, x.leaf.mint) + px]
  {
  }

  /** After y, the vault of x's leaf still covers x's refunds to the vault itself. */
  predicate SelfRefundsCovered(env: Env, a: Accounts, x: LeafRun, y: LeafRun)
    requires EqualLengths(x.leaf) && EqualLengths(y.leaf)
  {
    var key := env.ata(env.statePda, x.leaf.mint);
    SelfPaymentsCovered(AllPayments(env, x), Balance(a.ledger, key) - Outflow(AllPayments(env, y), key))
  }

  /** On m, which qs leads to from l0, ps goes through exactly when it is covered, and then leads to n. */
  ghost predicate Follows(l0: Ledger, key: Pubkey, ps: seq<Payment>, qs: seq<Payment>, m: Ledger, n: Ledger)
  {
    var paid := PayList(m, ps);
    && (paid.Ok? <==> SelfPaymentsCovered(ps, Balance(l0, key) - Outflow(qs, key)))
    && (paid.Ok? ==> paid == Ok(n))
  }

  lemma TwoListsSwap(l0: Ledger, v: Vault, ps: seq<Payment>, qs: seq<Payment>, l: Ledger, n: Ledger)
    returns (m: Ledger)
    requires v.key in l0.tokens && l0.tokens[v.key].mint == v.mint && VaultsAgree(v, ps, qs)
    requires PayList(l0, ps) == Ok(l) && PayList(l, qs) == Ok(n)
    ensures SameShape(l0, l) && SameShape(l0, m)
    ensures PayList(l0, qs) == Ok(m) && Follows(l0, v.key, ps, qs, m, n)
  {
    PayListAppend(l0, ps, qs);
    PayListAppend(l0, qs, ps);
    ListsSwap(l0, v, ps, qs);
    PayListShape(l0, ps);
    PayListShape(l0, qs);
    m := PayList(l0, qs).value;
  }

  lemma LeavesAgree(env: Env, x: LeafRun, y: LeafRun)
    requires EqualLengths(x.leaf) && EqualLengths(y.leaf)
    ensures VaultsAgree(VaultFor(env, x.leaf.mint), AllPayments(env, x), AllPayments(env, y))
  {
  }

  /** x's payments on m, which y's payments lead to: exactly when covered, and then they lead to n. */
  ghost predicate PaymentsFollow(env: Env, a: Accounts, x: LeafRun, y: LeafRun, m: Ledger, n: Ledger)
    requires EqualLengths(x.leaf) && EqualLengths(y.leaf)
  {
    var paid := PayList(m, AllPayments(env, x));
    && (paid.Ok? <==> SelfRefundsCovered(env, a, x, y))
    && (paid.Ok? ==> paid == Ok(n))
  }

  lemma LeafPaymentsSwap(env: Env, a: Accounts, x: LeafRun, y: LeafRun, l: Ledger, n: Ledger) returns (m: Ledger)
    requires EqualLengths(x.leaf) && EqualLengths(y.leaf) && VaultOk(env, a.ledger, x.leaf.mint)
    requires PayList(a.ledger, AllPayments(env, x)) == Ok(l) && PayList(l, AllPayments(env, y)) == Ok(n)
    ensures SameShape(a.ledger, l) && SameShape(a.ledger, m)
    ensures PayList(a.ledger, AllPayments(env, y)) == Ok(m) && PaymentsFollow(env, a, x, y, m, n)
  {
    LeavesAgree(env, x, y);
    m := TwoListsSwap(a.ledger, VaultFor(env, x.leaf.mint), AllPayments(env, x), AllPayments(env, y), l, n);
    FollowsIsPaymentsFollow(env, a, x, y, m, n);
  }

  lemma FollowsIsPaymentsFollow(env: Env, a: Accounts, x: LeafRun, y: LeafRun, m: Ledger, n: Ledger)
    requires EqualLengths(x.leaf) && EqualLengths(y.leaf)
    requires Follows(a.ledger, env.ata(env.statePda, x.leaf.mint), AllPayments(env, x), AllPayments(env, y), m, n)
    ensures PaymentsFollow(env, a, x, y, m, n)
  {
  }

  /**
   If x and then y execute, so does y first, and then x executes, with the same accounts at the end, exactly
   when x's refunds from the vault to itself are still covered once y is paid.
   */
  lemma ExecutionsSwap(env: Env, a: Accounts, x: LeafRun, y: LeafRun)
    requires !SameLeafId(x, y)
    requires ExecuteBoth(env, a, x, y).Ok?
    ensures EqualLengths(x.leaf) && EqualLengths(y.leaf) && Execute(env, a, y).Ok?
    ensures ExecuteBoth(env, a, y, x).Ok? <==> SelfRefundsCovered(env, a, x, y)
    ensures ExecuteBoth(env, a, y, x).Ok? ==> ExecuteBoth(env, a, y, x) == ExecuteBoth(env, a, x, y)
  {
    ExecuteIs(env, a, x);
    var l := PayList(a.ledger, AllPayments(env, x)).value;
    ExecuteIs(env, Marked(a, x, l), y);
    var n := PayList(l, AllPayments(env, y)).value;
    var m := LeafPaymentsSwap(env, a, x, y, l, n);
    AdmittedSwap(env, a, x, y, l, m);
    MarkedSwap(a, x, y, l, m, n);
    ExecuteIs(env, a, y);
    ExecuteIs(env, Marked(a, y, m), x);
  }

  // ---------- Permutations ----------

  /** No refund of the leaf is paid from the vault to the vault itself. */
  predicate PaysOthers(env: Env, x: LeafRun)
  {
    env.ata(env.statePda, x.leaf.mint) !in x.leaf.refundAccounts
  }

  lemma {:induction false} PaysOthersIsCovered(env: Env, x: LeafRun, n: nat, budget: int)
    requires EqualLengths(x.leaf) && n <= |x.leaf.refundAmounts| && PaysOthers(env, x)
    ensures SelfPaymentsCovered(PaymentsOf(env, x, n), budget)
  {
    if n > 0 {
      PaysOthersIsCovered(env, x, n - 1, budget);
      assert PaymentsOf(env, x, n)[..n - 1] == PaymentsOf(env, x, n - 1);
      assert x.leaf.refundAccounts[n - 1] in x.leaf.refundAccounts;
    }
  }

  lemma OthersCovered(env: Env, a: Accounts, x: LeafRun, y: LeafRun)
    requires EqualLengths(x.leaf) && EqualLengths(y.leaf) && PaysOthers(env, x)
    ensures SelfRefundsCovered(env, a, x, y)
  {
    var key := env.ata(env.statePda, x.leaf.mint);
    PaysOthersIsCovered(env, x, |x.leaf.refundAmounts|, Balance(a.ledger, key) - Outflow(AllPayments(env, y), key));
  }

  /** The function of one execution, for a fixed environment. */
  function Executor(env: Env): (Accounts, LeafRun) -> Result<Accounts, Error>
  {
    (a, x) => Execute(env, a, x)
  }

  lemma OthersSwap(env: Env, a: Accounts, x: LeafRun, y: LeafRun)
    requires !SameLeafId(x, y) && PaysOthers(env, x)
    requires ExecuteBoth(env, a, x, y).Ok?
    ensures Execute(env, a, y).Ok? && ExecuteBoth(env, a, y, x) == ExecuteBoth(env, a, x, y)
  {
    ExecutionsSwap(env, a, x, y);
    OthersCovered(env, a, x, y);
  }

  lemma ExecutionsCommute(env: Env, x: LeafRun, y: LeafRun)
    requires !SameLeafId(x, y) && PaysOthers(env, x)
    ensures Commutes(Executor(env), x, y)
  {
    var f := Executor(env);
    forall a | f(a, x).Ok? && f(f(a, x).value, y).Ok?
      ensures f(a, y).Ok? && f(f(a, y).value, x) == f(f(a, x).value, y)
    {
      assert ExecuteBoth(env, a, x, y) == f(f(a, x).value, y);
      OthersSwap(env, a, x, y);
      assert ExecuteBoth(env, a, y, x) == f(f(a, y).value, x);
    }
  }

  ghost predicate DistinctLeaves(xs: seq<LeafRun>)
  {
    forall i, j :: 0 <= i < j < |xs| ==> !SameLeafId(xs[i], xs[j])
  }

  /**
   If distinct leaves execute in one order, every permutation of them executes and ends in the same accounts:
   balances, claims, debts to the hub pool, bitmap bytes and account sizes alike.
   */
  lemma {:induction false} ExecutionsPermute(env: Env, a: Accounts, xs: seq<LeafRun>, ys: seq<LeafRun>)
    requires multiset(xs) == multiset(ys)
    requires DistinctLeaves(xs) && forall x :: x in xs ==> PaysOthers(env, x)
    requires Fold(Executor(env), a, xs).Ok?
    ensures Fold(Executor(env), a, ys) == Fold(Executor(env), a, xs)
  {
    forall i, j | 0 <= i < j < |xs|
      ensures Commutes(Executor(env), xs[i], xs[j])
    {
      ExecutionsCommute(env, xs[i], xs[j]);
    }
    PairwiseAllCommute(Executor(env), xs);
    FoldPermutes(Executor(env), a, xs, ys);
  }

  // ---------- Where the order matters ----------

  /** A leaf that refunds ten to one account. */
  function TenTo(mint: Pubkey, payee: Pubkey): RefundLeaf
  {
    RefundLeaf(0, 0, [10], 0, mint, [payee])
  }

  /** A bundle whose tree is the one leaf. */
  function BundleOf(env: Env, leaf: RefundLeaf): RootBundle
  {
    RootBundle(env.keccak(RefundLeafBytes(leaf)), DEFAULT_PUBKEY, [], Bitmap.INITIAL_DATA_LEN)
  }

  /** The vault holds ten; bundle 0 refunds ten to the vault itself, bundle 1 refunds ten to another account. */
  function TenInTheVault(env: Env, mint: Pubkey, other: Pubkey): Accounts
  {
    var vault, none := env.ata(env.statePda, mint), DEFAULT_PUBKEY;
    Accounts(
      State(false, false, none, 0, 0, 0, none, 2, 0, 0),
      Ledger(map[other := TokenAccount(mint, other, 0)][vault := TokenAccount(mint, env.statePda, 10)], map[]),
      map[], map[0 := BundleOf(env, TenTo(mint, vault)), 1 := BundleOf(env, TenTo(mint, other))], map[], map[])
  }

  function RunOfTen(bundleId: u32, mint: Pubkey, payee: Pubkey): LeafRun
  {
    LeafRun(DEFAULT_PUBKEY, bundleId, TenTo(mint, payee), [], [AccountInfo(TokenKey(payee), true)])
  }

  lemma PaysTen(v: Vault, l: Ledger, payee: Pubkey)
    ensures var leaf, infos := TenTo(v.mint, payee), [AccountInfo(TokenKey(payee), true)];
            PayFirst(v, l, leaf, infos, 1) == PayOne(v, l, infos, 0, payee, 10)
  {
    var leaf, infos := TenTo(v.mint, payee), [AccountInfo(TokenKey(payee), true)];
    assert PayFirst(v, l, leaf, infos, 0) == Ok(l);
  }

  /** The condition is needed: the vault's refund to itself goes through first, and not after the other refund. */
  lemma SelfRefundMustGoFirst(env: Env, mint: Pubkey, other: Pubkey)
    requires other != env.ata(env.statePda, mint)
    ensures var a, vault := TenInTheVault(env, mint, other), env.ata(env.statePda, mint);
            var x, y := RunOfTen(0, mint, vault), RunOfTen(1, mint, other);
            && !SameLeafId(x, y)
            && ExecuteBoth(env, a, x, y).Ok?
            && ExecuteBoth(env, a, y, x) == Err(InsufficientFunds)
  {
    var a, v := TenInTheVault(env, mint, other), VaultFor(env, mint);
    var x, y := RunOfTen(0, mint, v.key), RunOfTen(1, mint, other);
    PaysTen(v, a.ledger, v.key);
    PaysTen(v, a.ledger, other);
    var l := PayOne(v, a.ledger, y.infos, 0, other, 10).value;
    PaysTen(v, l, v.key);
    assert PayOne(v, l, x.infos, 0, v.key, 10) == Err(InsufficientFunds);
    assert PayOne(v, a.ledger, x.infos, 0, v.key, 10) == Ok(a.ledger);
  }
}
