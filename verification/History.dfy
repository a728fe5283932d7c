/**
 Every entry of a reachable log is a step that applied in a reachable world, the one before it. What holds in
 every reachable world therefore holds at every moment of its history.
 */
module History {
  import opened Binary
  import opened Results
  import opened Leaves
  import opened Spoke
  import opened Bundles
  import Merkle

  /** u is the world in which entry k of the log was made. */
  ghost predicate MadeIn(env: Env, u: World, log: seq<Entry>, k: nat)
    requires k < |log|
  {
    && u.log == log[..k]
    && u.accounts == log[k].before
    && u.clock <= log[k].now
    && var outcome := Apply(env, u.accounts, log[k].now, log[k].step);
    && outcome.Ok? && outcome.value.event == log[k].event
  }

  lemma {:induction false} LogGrows(env: Env, w: World, ts: seq<Transaction>)
    ensures w.log <= Run(env, w, ts).log
    decreases |ts|
  {
    if ts != [] {
      LogGrows(env, Next(env, w, ts[0]), ts[1..]);
    }
  }

  /** The transactions before the one that made entry k, and the world they lead to. */
  lemma {:induction false} Rewind(env: Env, w: World, ts: seq<Transaction>, k: nat) returns (n: nat)
    requires Chronological(w.clock, ts)
    requires |w.log| <= k < |Run(env, w, ts).log|
    ensures n < |ts| && Chronological(w.clock, ts[..n])
    ensures MadeIn(env, Run(env, w, ts[..n]), Run(env, w, ts).log, k)
    decreases |ts|
  {
    var v := Next(env, w, ts[0]);
    LogGrows(env, v, ts[1..]);
    if k == |w.log| && |v.log| > k {
      n := 0;
      assert Run(env, w, ts).log[..k] == w.log && v.log[k] == Run(env, w, ts).log[k];
    } else {
      var m := Rewind(env, v, ts[1..], k);
      n := m + 1;
      assert ts[..n][0] == ts[0] && ts[..n][1..] == ts[1..][..m];
    }
  }

  lemma {:induction false} EntryMadeIn(env: Env, w0: World, w: World, k: nat) returns (u: World)
    requires Reaches(env, w0, w) && k < |w.log|
    ensures Reaches(env, w0, u) && MadeIn(env, u, w.log, k)
  {
    var ts :| Chronological(w0.clock, ts) && w == Run(env, w0, ts);
    var n := Rewind(env, w0, ts, k);
    u := Run(env, w0, ts[..n]);
  }

  lemma RelayedOnce(env: Env, u: World, t: Transaction, post: Post, id: u32)
    requires BundleOk(env, u, id) && BundleChange(env, u.accounts, t.step, post) && id in Relayed(u.log)
    ensures var log := After(u, t, post).log;
            id in Relayed(log) && Relayed(log)[id] == Relayed(u.log)[id]
  {
    Grown(u.log, After(u, t, post).log[|u.log|]);
  }

  /** One more entry keeps the roots relayed under an id. */
  lemma RelayedStays(env: Env, w0: World, w: World, k: nat, id: u32)
    requires Reaches(env, w0, w) && k < |w.log| && id in Relayed(w.log[..k])
    ensures id in Relayed(w.log[..k + 1]) && Relayed(w.log[..k + 1])[id] == Relayed(w.log[..k])[id]
  {
    var u := EntryMadeIn(env, w0, w, k);
    var t := Transaction(w.log[k].now, w.log[k].step);
    ReachableBundles(env, w0, u);
    assert BundleOk(env, u, id);
    StepChangesBundles(env, u.accounts, t.now, t.step);
    var post := Apply(env, u.accounts, t.now, t.step).value;
    RelayedOnce(env, u, t, post, id);
    assert After(u, t, post).log == w.log[..k + 1];
  }

  lemma {:induction false} RelayedPrefix(env: Env, w0: World, w: World, k: nat, id: u32)
    requires Reaches(env, w0, w) && k <= |w.log| && id in Relayed(w.log[..k])
    ensures id in Relayed(w.log) && Relayed(w.log)[id] == Relayed(w.log[..k])[id]
    decreases |w.log| - k
  {
    if k == |w.log| {
      assert w.log[..k] == w.log;
    } else {
      RelayedStays(env, w0, w, k, id);
      RelayedPrefix(env, w0, w, k + 1, id);
    }
  }

  // ---------- Slow fills ----------

  /** A slow fill that a bundle's slow tree grants on a chain. */
  datatype SlowLeaf = SlowLeaf(rd: RelayData, chainId: u64, updatedOutputAmount: u64)

  function SlowLeafBytes(leaf: SlowLeaf): Bytes
  {
    SlowFillBytes(leaf.rd, leaf.chainId, leaf.updatedOutputAmount)
  }

  ghost predicate SlowTreeOver(t: Merkle.Tree, leaves: seq<SlowLeaf>)
  {
    forall d :: d in Merkle.Leaves(t) ==> exists leaf :: leaf in leaves && d == SlowLeafBytes(leaf)
  }

  lemma AcceptedSlowLeaf(h: Hasher, t: Merkle.Tree, leaves: seq<SlowLeaf>, x: SlowLeaf, proof: seq<Hash>)
    requires SlowTreeOver(t, leaves)
    requires Merkle.ProcessProof(h, h(SlowLeafBytes(x)), proof) == Merkle.Root(h, t)
    requires CollisionFree(h, Merkle.ProofPreimages(h, SlowLeafBytes(x), proof) + Merkle.TreePreimages(h, t))
    ensures x in leaves
  {
    SlowFillSize(x.rd, x.chainId, x.updatedOutputAmount);
    forall d | d in Merkle.Leaves(t)
      ensures |d| != 64
    {
      var leaf :| leaf in leaves && d == SlowLeafBytes(leaf);
      SlowFillSize(leaf.rd, leaf.chainId, leaf.updatedOutputAmount);
    }
    Merkle.AcceptedIsMember(h, t, SlowLeafBytes(x), proof,
                            Merkle.ProofPreimages(h, SlowLeafBytes(x), proof) + Merkle.TreePreimages(h, t));
    var leaf :| leaf in leaves && SlowLeafBytes(x) == SlowLeafBytes(leaf);
    SlowFillInjective(x.rd, leaf.rd, x.chainId, leaf.chainId, x.updatedOutputAmount, leaf.updatedOutputAmount);
  }

  /**
   Whenever a slow fill was executed from a bundle, the bundle had been relayed, and what was paid, to whom and
   on which chain is word for word a leaf of the tree relayed as its slow root, barring a collision.
   */
  lemma SlowFillWasGranted(env: Env, w0: World, w: World, k: nat, t: Merkle.Tree, leaves: seq<SlowLeaf>)
    requires Reaches(env, w0, w) && k < |w.log| && w.log[k].step.ExecuteSlowFill?
    requires SlowTreeOver(t, leaves)
    ensures w.log[k].step.bundleId in Relayed(w.log[..k])
    ensures w.log[k].step.bundleId in Relayed(w.log)
    ensures var step := w.log[k].step;
            var x := SlowLeaf(step.rd, w.log[k].before.state.chainId, step.updatedOutputAmount);
            && w.log[k].event == FilledV3Relay(step.rd, 0, DEFAULT_PUBKEY, step.updatedOutputAmount, SlowFill)
            && (Relayed(w.log)[step.bundleId].slow == Merkle.Root(env.keccak, t)
                && CollisionFree(env.keccak, Merkle.ProofPreimages(env.keccak, SlowLeafBytes(x), step.proof)
                                             + Merkle.TreePreimages(env.keccak, t))
                ==> x in leaves)
  {
    var u := EntryMadeIn(env, w0, w, k);
    var step, id := w.log[k].step, w.log[k].step.bundleId;
    var x := SlowLeaf(step.rd, u.accounts.state.chainId, step.updatedOutputAmount);
    ReachableBundles(env, w0, u);
    assert BundleOk(env, u, id);
    SlowFillChecks(env, u.accounts, w.log[k].now, step);
    RelayedPrefix(env, w0, w, k, id);
    if Relayed(w.log)[id].slow == Merkle.Root(env.keccak, t)
       && CollisionFree(env.keccak, Merkle.ProofPreimages(env.keccak, SlowLeafBytes(x), step.proof)
                                    + Merkle.TreePreimages(env.keccak, t)) {
      AcceptedSlowLeaf(env.keccak, t, leaves, x, step.proof);
    }
  }

  lemma SlowFillChecks(env: Env, a: Accounts, now: u32, step: Step)
    requires step.ExecuteSlowFill? && Apply(env, a, now, step).Ok?
    ensures step.bundleId in a.bundles
    ensures Merkle.ProcessProof(env.keccak,
                                env.keccak(SlowFillBytes(step.rd, a.state.chainId, step.updatedOutputAmount)),
                                step.proof) == a.bundles[step.bundleId].slowRelayRoot
    ensures Apply(env, a, now, step).value.event
            == FilledV3Relay(step.rd, 0, DEFAULT_PUBKEY, step.updatedOutputAmount, SlowFill)
  {
  }
}
