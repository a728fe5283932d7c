/** What a bundle pays, over a whole run, against what its Merkle tree owes. */
module Payouts {
  import opened Binary
  import opened Leaves
  import opened Refunds
  import opened Spoke
  import opened Bundles
  import Merkle

  /** What one leaf pays out of a mint. */
  function Payout(leaf: RefundLeaf, mint: Pubkey): nat
  {
    if leaf.mint == mint then Sum(leaf.refundAmounts) else 0
  }

  function PayoutOf(leaves: seq<RefundLeaf>, mint: Pubkey): nat
  {
    if leaves == [] then 0 else Payout(leaves[0], mint) + PayoutOf(leaves[1..], mint)
  }

  /** The refunds, direct and deferred, that the event log says were made from a bundle in a mint. */
  function Paid(log: seq<Entry>, id: u32, mint: Pubkey): nat
  {
    if log == [] then 0
    else
      var earlier, e := Paid(log[..|log| - 1], id, mint), log[|log| - 1].event;
      if e.ExecutedRelayerRefundRoot? && e.bundleId == id then earlier + Payout(e.leaf, mint) else earlier
  }

  function LeavesOf(executions: seq<Execution>): (r: seq<RefundLeaf>)
    ensures |r| == |executions|
  {
    seq(|executions|, i requires 0 <= i < |executions| => executions[i].leaf)
  }

  /** The Solana leaves of a tree that are meant for the given chain. */
  function ChainLeaves(leaves: seq<BundleLeaf>, chainId: u64): (r: seq<RefundLeaf>)
    ensures forall x :: x in r <==> SolanaLeaf(x) in leaves && x.chainId == chainId
  {
    if leaves == [] then []
    else
      var first, rest := leaves[0], ChainLeaves(leaves[1..], chainId);
      if first.SolanaLeaf? && first.solana.chainId == chainId then [first.solana] + rest else rest
  }

  /** ys without the elements of xs. */
  function Without(ys: seq<RefundLeaf>, xs: seq<RefundLeaf>): (r: seq<RefundLeaf>)
    ensures forall y :: y in r <==> y in ys && y !in xs
  {
    if ys == [] then []
    else if ys[0] in xs then Without(ys[1..], xs)
    else [ys[0]] + Without(ys[1..], xs)
  }

  predicate NoDuplicates(xs: seq<RefundLeaf>)
  {
    xs == [] || (xs[0] !in xs[1..] && NoDuplicates(xs[1..]))
  }

  lemma {:induction false} DistinctIds(xs: seq<RefundLeaf>)
    requires forall i, j :: 0 <= i < j < |xs| ==> xs[i].leafId != xs[j].leafId
    ensures NoDuplicates(xs)
  {
    if xs != [] {
      assert forall j :: 0 <= j < |xs[1..]| ==> xs[1..][j] == xs[j + 1];
      DistinctIds(xs[1..]);
    }
  }

  lemma {:induction false} WithoutOne(ys: seq<RefundLeaf>, x: RefundLeaf, mint: Pubkey)
    ensures x !in ys ==> Without(ys, [x]) == ys
    ensures x in ys ==> PayoutOf(ys, mint) >= Payout(x, mint) + PayoutOf(Without(ys, [x]), mint)
    ensures NoDuplicates(ys) ==> NoDuplicates(Without(ys, [x]))
    ensures x in ys && NoDuplicates(ys) ==>
              PayoutOf(ys, mint) == Payout(x, mint) + PayoutOf(Without(ys, [x]), mint)
  {
    if ys != [] {
      WithoutOne(ys[1..], x, mint);
      if ys[0] != x {
        assert Without(ys, [x])[1..] == Without(ys[1..], [x]);
      }
    }
  }

  lemma {:induction false} WithoutTwice(ys: seq<RefundLeaf>, x: RefundLeaf, xs: seq<RefundLeaf>)
    ensures Without(Without(ys, [x]), xs) == Without(ys, [x] + xs)
  {
    if ys != [] {
      WithoutTwice(ys[1..], x, xs);
    }
  }

  /** Distinct members of ys weigh, with the members left over, no more than ys, and just as much if ys is distinct. */
  lemma {:induction false} PayoutSplit(xs: seq<RefundLeaf>, ys: seq<RefundLeaf>, mint: Pubkey)
    requires NoDuplicates(xs)
    requires forall x :: x in xs ==> x in ys
    ensures PayoutOf(xs, mint) + PayoutOf(Without(ys, xs), mint) <= PayoutOf(ys, mint)
    ensures NoDuplicates(ys) ==> PayoutOf(xs, mint) + PayoutOf(Without(ys, xs), mint) == PayoutOf(ys, mint)
  {
    if xs == [] {
      WithoutNone(ys);
    } else {
      var x, rest := xs[0], xs[1..];
      assert xs == [x] + rest;
      WithoutOne(ys, x, mint);
      PayoutSplit(rest, Without(ys, [x]), mint);
      WithoutTwice(ys, x, rest);
    }
  }

  lemma {:induction false} NothingLeft(ys: seq<RefundLeaf>, xs: seq<RefundLeaf>)
    requires forall y :: y in ys ==> y in xs
    ensures Without(ys, xs) == []
  {
    if ys != [] {
      NothingLeft(ys[1..], xs);
    }
  }

  lemma {:induction false} WithoutNone(ys: seq<RefundLeaf>)
    ensures Without(ys, []) == ys
  {
    if ys != [] {
      WithoutNone(ys[1..]);
    }
  }

  lemma {:induction false} PayoutSnoc(xs: seq<RefundLeaf>, x: RefundLeaf, mint: Pubkey)
    ensures PayoutOf(xs + [x], mint) == PayoutOf(xs, mint) + Payout(x, mint)
  {
    if xs != [] {
      PayoutSnoc(xs[1..], x, mint);
      assert (xs + [x])[1..] == xs[1..] + [x];
    }
  }

  /** The event log pays exactly the executed leaves. */
  lemma {:induction false} PaidIsExecuted(log: seq<Entry>, id: u32, mint: Pubkey)
    ensures Paid(log, id, mint) == PayoutOf(LeavesOf(Executed(log, id)), mint)
  {
    if log != [] {
      var init, e := log[..|log| - 1], log[|log| - 1].event;
      PaidIsExecuted(init, id, mint);
      if e.ExecutedRelayerRefundRoot? && e.bundleId == id {
        assert LeavesOf(Executed(log, id)) == LeavesOf(Executed(init, id)) + [e.leaf];
        PayoutSnoc(LeavesOf(Executed(init, id)), e.leaf, mint);
      }
    }
  }

  // ---------- The tree ----------

  /** t is a tree over the leaves, in any shape and order, and its Solana leaves are well formed. */
  ghost predicate TreeOver(t: Merkle.Tree, leaves: seq<BundleLeaf>)
  {
    && (forall d :: d in Merkle.Leaves(t) ==> exists leaf :: leaf in leaves && d == BundleLeafBytes(leaf))
    && (forall leaf :: leaf in leaves && leaf.SolanaLeaf? ==> EqualLengths(leaf.solana))
  }

  /** Everything hashed to check the executions' proofs. */
  function ProofsHashed(h: Hasher, executions: seq<Execution>): set<Bytes>
  {
    if executions == [] then {}
    else Merkle.ProofPreimages(h, RefundLeafBytes(executions[0].leaf), executions[0].proof)
         + ProofsHashed(h, executions[1..])
  }

  lemma {:induction false} ProofsHashedContains(h: Hasher, executions: seq<Execution>, i: nat)
    requires i < |executions|
    ensures Merkle.ProofPreimages(h, RefundLeafBytes(executions[i].leaf), executions[i].proof)
            <= ProofsHashed(h, executions)
  {
    if i > 0 {
      ProofsHashedContains(h, executions[1..], i - 1);
    }
  }

  /** A leaf accepted against the tree's root is one of its Solana leaves: not a node, not an EVM leaf. */
  lemma AcceptedLeafIsOwed(h: Hasher, t: Merkle.Tree, leaves: seq<BundleLeaf>, x: Execution, hashed: set<Bytes>)
    requires TreeOver(t, leaves)
    requires EqualLengths(x.leaf)
    requires Merkle.ProcessProof(h, h(RefundLeafBytes(x.leaf)), x.proof) == Merkle.Root(h, t)
    requires Merkle.ProofPreimages(h, RefundLeafBytes(x.leaf), x.proof) + Merkle.TreePreimages(h, t) <= hashed
    requires CollisionFree(h, hashed)
    ensures SolanaLeaf(x.leaf) in leaves
  {
    var bytes := RefundLeafBytes(x.leaf);
    DomainSeparation(SolanaLeaf(x.leaf));
    forall d | d in Merkle.Leaves(t)
      ensures |d| != 64
    {
      var leaf :| leaf in leaves && d == BundleLeafBytes(leaf);
      DomainSeparation(leaf);
    }
    Merkle.AcceptedIsMember(h, t, bytes, x.proof, hashed);
    var leaf :| leaf in leaves && bytes == BundleLeafBytes(leaf);
    DomainSeparation(leaf);
    EqualLengthLeafInjective(leaf.solana, x.leaf);
  }

  /**
   In every reachable world a bundle relayed with the tree's root has paid, per mint, at most what the
   tree's leaves for this chain owe; what is still owed is what the leaves not yet executed pay. The one
   assumption is that no two of the byte strings hashed for this tree and these proofs collide.
   */
  lemma {:induction false} PayoutBound(env: Env, w0: World, w: World, id: u32, t: Merkle.Tree,
                                       leaves: seq<BundleLeaf>, mint: Pubkey)
    requires Reaches(env, w0, w)
    requires id in Relayed(w.log) && Relayed(w.log)[id].refund == Merkle.Root(env.keccak, t)
    requires TreeOver(t, leaves)
    requires CollisionFree(env.keccak,
                           Merkle.TreePreimages(env.keccak, t) + ProofsHashed(env.keccak, Executed(w.log, id)))
    ensures var owed := ChainLeaves(leaves, w.accounts.state.chainId);
            var left := Without(owed, LeavesOf(Executed(w.log, id)));
            && Paid(w.log, id, mint) + PayoutOf(left, mint) <= PayoutOf(owed, mint)
            && (NoDuplicates(owed) ==> Paid(w.log, id, mint) + PayoutOf(left, mint) == PayoutOf(owed, mint))
  {
    var executed, owed := Executed(w.log, id), ChainLeaves(leaves, w.accounts.state.chainId);
    var hashed := Merkle.TreePreimages(env.keccak, t) + ProofsHashed(env.keccak, executed);
    var paid := LeavesOf(executed);
    ReachableBundles(env, w0, w);
    assert BundleOk(env, w, id);
    forall x | x in paid
      ensures x in owed
    {
      var i :| 0 <= i < |paid| && paid[i] == x;
      assert ExecutionOk(env, w.accounts.state.chainId, Relayed(w.log), id, executed[i]);
      ProofsHashedContains(env.keccak, executed, i);
      AcceptedLeafIsOwed(env.keccak, t, leaves, executed[i], hashed);
    }
    DistinctIds(paid);
    PaidIsExecuted(w.log, id, mint);
    PayoutSplit(paid, owed, mint);
  }

  /** Once every leaf for this chain is executed, the bundle has paid exactly what its tree owes. */
  lemma {:induction false} PayoutComplete(env: Env, w0: World, w: World, id: u32, t: Merkle.Tree,
                                          leaves: seq<BundleLeaf>, mint: Pubkey)
    requires Reaches(env, w0, w)
    requires id in Relayed(w.log) && Relayed(w.log)[id].refund == Merkle.Root(env.keccak, t)
    requires TreeOver(t, leaves)
    requires CollisionFree(env.keccak,
                           Merkle.TreePreimages(env.keccak, t) + ProofsHashed(env.keccak, Executed(w.log, id)))
    requires NoDuplicates(ChainLeaves(leaves, w.accounts.state.chainId))
    requires forall x :: x in ChainLeaves(leaves, w.accounts.state.chainId) ==> x in LeavesOf(Executed(w.log, id))
    ensures Paid(w.log, id, mint) == PayoutOf(ChainLeaves(leaves, w.accounts.state.chainId), mint)
  {
    PayoutBound(env, w0, w, id, t, leaves, mint);
    NothingLeft(ChainLeaves(leaves, w.accounts.state.chainId), LeavesOf(Executed(w.log, id)));
  }
}
