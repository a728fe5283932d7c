/**
 What every run keeps about root bundles: ids are never reused, a leaf is executed at most once, a live
 bitmap denotes exactly the leaves executed, and a bundle never pays more than its tree owes.
 */
module Bundles {
  import opened Binary
  import opened Results
  import opened Leaves
  import opened Ledger
  import opened Spoke
  import opened CallData
  import Bitmap
  import Merkle

  // ---------- Reading the log ----------

  datatype Roots = Roots(refund: Hash, slow: Hash)

  /** The roots relayed so far, by bundle id. */
  function Relayed(log: seq<Entry>): map<u32, Roots>
  {
    if log == [] then map[]
    else
      var earlier, e := Relayed(log[..|log| - 1]), log[|log| - 1].event;
      if e.RelayedRootBundle? then earlier[e.relayedId := Roots(e.relayerRefundRoot, e.slowRelayRoot)] else earlier
  }

  /** An executed leaf and the proof it was executed with. */
  datatype Execution = Execution(leaf: RefundLeaf, proof: seq<Hash>)

  function ProofOf(step: Step): seq<Hash>
  {
    if step.ExecuteRefund? then step.proof else []
  }

  /** The refund executions logged under a bundle id, in order. */
  function Executed(log: seq<Entry>, id: u32): seq<Execution>
  {
    if log == [] then []
    else
      var earlier, e := Executed(log[..|log| - 1], id), log[|log| - 1];
      if e.event.ExecutedRelayerRefundRoot? && e.event.bundleId == id
      then earlier + [Execution(e.event.leaf, ProofOf(e.step))]
      else earlier
  }

  ghost predicate ExecutedLeaf(log: seq<Entry>, id: u32, leafId: u32)
  {
    exists i :: 0 <= i < |Executed(log, id)| && Executed(log, id)[i].leaf.leafId == leafId
  }

  lemma Grown(log: seq<Entry>, e: Entry)
    ensures (log + [e])[..|log + [e]| - 1] == log
  {
  }

  // ---------- One step ----------

  /** All that a step can do to the bundles, by the event it emits. */
  ghost predicate BundleChange(env: Env, a: Accounts, step: Step, post: Post)
  {
    var b := post.accounts;
    && b.state.chainId == a.state.chainId
    && match post.event
       case ExecutedRelayerRefundRoot(id, leaf, _, _) =>
         && step.ExecuteRefund?
         && id in a.bundles
         && EqualLengths(leaf) && leaf.chainId == a.state.chainId
         && !Bitmap.IsClaimed(a.bundles[id].claimedBitmap, leaf.leafId)
         && Merkle.ProcessProof(env.keccak, env.keccak(RefundLeafBytes(leaf)), step.proof)
            == a.bundles[id].relayerRefundRoot
         && b.bundles == a.bundles[id := MarkClaimed(a.bundles[id], leaf.leafId)]
         && b.state.rootBundleId == a.state.rootBundleId
       case RelayedRootBundle(id, refund, slow) =>
         && id == a.state.rootBundleId
         && b.bundles == a.bundles[id := RootBundle(refund, slow, [], Bitmap.INITIAL_DATA_LEN)]
         && b.state.rootBundleId == id + 1
       case DeletedRootBundle(id) =>
         b.bundles == a.bundles - {id} && b.state.rootBundleId == a.state.rootBundleId
       case _ =>
         b.bundles == a.bundles && b.state.rootBundleId == a.state.rootBundleId
  }

  lemma AdministerChangesBundles(env: Env, a: Accounts, signer: Pubkey, call: AdminCall, mint: Pubkey, step: Step)
    requires Administer(env, a, signer, call, mint).Ok?
    ensures BundleChange(env, a, step, Administer(env, a, signer, call, mint).value)
  {
  }

  lemma RefundChangesBundles(env: Env, a: Accounts, step: Step)
    requires step.ExecuteRefund?
    requires ExecuteRelayerRefundLeaf(env, a, step.signer, step.bundleId, step.leaf, step.proof, step.infos).Ok?
    ensures BundleChange(env, a, step, ExecuteRelayerRefundLeaf(env, a, step.signer, step.bundleId, step.leaf,
                                                                step.proof, step.infos).value)
  {
  }

  lemma TransfersChangeNoBundle(env: Env, a: Accounts, now: u32, step: Step)
    requires step.Deposit? || step.Fill? || step.ExecuteSlowFill?
    requires Apply(env, a, now, step).Ok?
    ensures BundleChange(env, a, step, Apply(env, a, now, step).value)
  {
  }

  lemma OtherStepsChangeNoBundle(env: Env, a: Accounts, now: u32, step: Step)
    requires !step.Deposit? && !step.Fill? && !step.ExecuteSlowFill?
    requires !step.ExecuteRefund? && !step.Admin? && !step.Receive?
    requires Apply(env, a, now, step).Ok?
    ensures BundleChange(env, a, step, Apply(env, a, now, step).value)
  {
  }

  lemma {:induction false} StepChangesBundles(env: Env, a: Accounts, now: u32, step: Step)
    requires Apply(env, a, now, step).Ok?
    ensures BundleChange(env, a, step, Apply(env, a, now, step).value)
  {
    match step
    case Admin(signer, call, mint) =>
      AdministerChangesBundles(env, a, signer, call, mint, step);
    case Receive(_, _, _, _, body, mint) =>
      AdministerChangesBundles(env, a, env.selfAuthority, ReceivedCall(env, body).value, mint, step);
    case ExecuteRefund(_, _, _, _, _) =>
      RefundChangesBundles(env, a, step);
    case _ =>
      if step.Deposit? || step.Fill? || step.ExecuteSlowFill? {
        TransfersChangeNoBundle(env, a, now, step);
      } else {
        OtherStepsChangeNoBundle(env, a, now, step);
      }
  }

  // ---------- The invariant ----------

  /** What the log and the accounts say about one bundle id. */
  ghost predicate BundleOk(env: Env, w: World, id: u32)
  {
    var a, relayed, executed := w.accounts, Relayed(w.log), Executed(w.log, id);
    && (id in relayed ==> id < a.state.rootBundleId)
    && (id !in relayed ==> executed == [])
    && (id in a.bundles ==>
          && id in relayed
          && relayed[id] == Roots(a.bundles[id].relayerRefundRoot, a.bundles[id].slowRelayRoot)
          && Bitmap.FitsAccount(a.bundles[id].claimedBitmap, a.bundles[id].dataLen)
          && forall leafId: u32 ::
               leafId in Bitmap.Ids(a.bundles[id].claimedBitmap) <==> ExecutedLeaf(w.log, id, leafId))
    && (forall i, j :: 0 <= i < j < |executed| ==> executed[i].leaf.leafId != executed[j].leaf.leafId)
    && (forall i :: 0 <= i < |executed| ==> ExecutionOk(env, a.state.chainId, relayed, id, executed[i]))
  }

  /** The execution was proved against the root relayed under the id. */
  ghost predicate ExecutionOk(env: Env, chainId: u64, relayed: map<u32, Roots>, id: u32, x: Execution)
  {
    && EqualLengths(x.leaf) && x.leaf.chainId == chainId
    && id in relayed
    && Merkle.ProcessProof(env.keccak, env.keccak(RefundLeafBytes(x.leaf)), x.proof) == relayed[id].refund
  }

  ghost predicate BundlesOk(env: Env, w: World)
  {
    forall id: u32 :: BundleOk(env, w, id)
  }

  lemma GenesisBundlesOk(env: Env, w: World)
    requires Genesis(w)
    ensures BundlesOk(env, w)
  {
  }

  lemma ExecutionKeepsBundle(env: Env, w: World, t: Transaction, post: Post, id: u32)
    requires BundleOk(env, w, id)
    requires BundleChange(env, w.accounts, t.step, post)
    requires post.event.ExecutedRelayerRefundRoot? && post.event.bundleId == id
    ensures BundleOk(env, After(w, t, post), id)
  {
    var leaf, bundle, log := post.event.leaf, w.accounts.bundles[id], After(w, t, post).log;
    Grown(w.log, log[|w.log|]);
    var before, after := Executed(w.log, id), Executed(log, id);
    assert after == before + [Execution(leaf, t.step.proof)];
    Bitmap.SetClaimedAdds(bundle.claimedBitmap, leaf.leafId);
    Bitmap.ReallocFits(bundle.claimedBitmap, bundle.dataLen, leaf.leafId);
    forall leafId: u32
      ensures ExecutedLeaf(log, id, leafId) <==> leafId == leaf.leafId || ExecutedLeaf(w.log, id, leafId)
    {
      assert after[|before|].leaf.leafId == leaf.leafId;
      assert forall i :: 0 <= i < |before| ==> after[i] == before[i];
    }
    assert leaf.leafId !in Bitmap.Ids(bundle.claimedBitmap);
    assert forall i :: 0 <= i < |before| ==> before[i].leaf.leafId != leaf.leafId;
  }

  lemma OtherStepsKeepBundle(env: Env, w: World, t: Transaction, post: Post, id: u32)
    requires BundleOk(env, w, id) && BundleOk(env, w, w.accounts.state.rootBundleId)
    requires BundleChange(env, w.accounts, t.step, post)
    requires !(post.event.ExecutedRelayerRefundRoot? && post.event.bundleId == id)
    ensures BundleOk(env, After(w, t, post), id)
  {
    var log := After(w, t, post).log;
    Grown(w.log, log[|w.log|]);
    assert Executed(log, id) == Executed(w.log, id);
    forall leafId: u32
      ensures ExecutedLeaf(log, id, leafId) <==> ExecutedLeaf(w.log, id, leafId)
    {
    }
  }

  lemma StepKeepsBundles(env: Env, w: World, t: Transaction)
    requires BundlesOk(env, w)
    ensures BundlesOk(env, Next(env, w, t))
  {
    var outcome := Apply(env, w.accounts, t.now, t.step);
    if outcome.Ok? {
      var post := outcome.value;
      StepChangesBundles(env, w.accounts, t.now, t.step);
      assert BundleOk(env, w, w.accounts.state.rootBundleId);
      forall id: u32
        ensures BundleOk(env, After(w, t, post), id)
      {
        assert BundleOk(env, w, id);
        if post.event.ExecutedRelayerRefundRoot? && post.event.bundleId == id {
          ExecutionKeepsBundle(env, w, t, post, id);
        } else {
          OtherStepsKeepBundle(env, w, t, post, id);
        }
      }
    } else {
      forall id: u32
        ensures BundleOk(env, w.(clock := t.now), id)
      {
        assert BundleOk(env, w, id);
      }
    }
  }

  lemma {:induction false} RunKeepsBundles(env: Env, w: World, ts: seq<Transaction>)
    requires BundlesOk(env, w)
    ensures BundlesOk(env, Run(env, w, ts))
    decreases |ts|
  {
    if ts != [] {
      StepKeepsBundles(env, w, ts[0]);
      RunKeepsBundles(env, Next(env, w, ts[0]), ts[1..]);
    }
  }

  /** In every reachable world every bundle id is in order, deleted and unused ones included. */
  lemma ReachableBundles(env: Env, w0: World, w: World)
    requires Reaches(env, w0, w)
    ensures BundlesOk(env, w)
  {
    GenesisBundlesOk(env, w0);
    var ts :| Chronological(w0.clock, ts) && w == Run(env, w0, ts);
    RunKeepsBundles(env, w0, ts);
  }

  // ---------- Live bundles ----------

  /** The bundle was relayed and has not been deleted. */
  predicate Live(log: seq<Entry>, id: u32)
  {
    log != []
    && match log[|log| - 1].event
       case RelayedRootBundle(relayed, _, _) => relayed == id || Live(log[..|log| - 1], id)
       case DeletedRootBundle(deleted) => deleted != id && Live(log[..|log| - 1], id)
       case _ => Live(log[..|log| - 1], id)
  }

  lemma ChangeKeepsLive(env: Env, w: World, t: Transaction, post: Post, id: u32)
    requires BundleChange(env, w.accounts, t.step, post)
    requires id in w.accounts.bundles <==> Live(w.log, id)
    ensures id in post.accounts.bundles <==> Live(After(w, t, post).log, id)
  {
    Grown(w.log, After(w, t, post).log[|w.log|]);
  }

  lemma {:induction false} RunKeepsLive(env: Env, w: World, ts: seq<Transaction>, id: u32)
    requires id in w.accounts.bundles <==> Live(w.log, id)
    ensures var v := Run(env, w, ts);
            id in v.accounts.bundles <==> Live(v.log, id)
    decreases |ts|
  {
    if ts != [] {
      var outcome := Apply(env, w.accounts, ts[0].now, ts[0].step);
      if outcome.Ok? {
        StepChangesBundles(env, w.accounts, ts[0].now, ts[0].step);
        ChangeKeepsLive(env, w, ts[0], outcome.value, id);
      }
      RunKeepsLive(env, Next(env, w, ts[0]), ts[1..], id);
    }
  }

  /** A bundle account exists exactly while its bundle is relayed and not deleted. */
  lemma LiveBundlesAreHistory(env: Env, w0: World, w: World, id: u32)
    requires Reaches(env, w0, w)
    ensures id in w.accounts.bundles <==> Live(w.log, id)
  {
    var ts :| Chronological(w0.clock, ts) && w == Run(env, w0, ts);
    RunKeepsLive(env, w0, ts, id);
  }

  // ---------- Single executions ----------

  /** Longer logs only append executions. */
  lemma {:induction false} ExecutedPrefix(log: seq<Entry>, k: nat, id: u32)
    requires k <= |log|
    ensures Executed(log[..k], id) <= Executed(log, id)
  {
    if k < |log| {
      var init := log[..|log| - 1];
      ExecutedPrefix(init, k, id);
      assert init[..k] == log[..k];
    } else {
      assert log[..k] == log;
    }
  }

  /** Entry k, an execution, is the one after those before it. */
  lemma ExecutedAt(log: seq<Entry>, k: nat, id: u32)
    requires k < |log|
    requires log[k].event.ExecutedRelayerRefundRoot? && log[k].event.bundleId == id
    ensures var n := |Executed(log[..k], id)|;
            && |Executed(log[..k + 1], id)| == n + 1 <= |Executed(log, id)|
            && Executed(log, id)[n].leaf == log[k].event.leaf
  {
    assert log[..k + 1] == log[..k] + [log[k]];
    Grown(log[..k], log[k]);
    ExecutedPrefix(log, k + 1, id);
  }

  /** No two entries of a reachable log execute the same leaf id of the same bundle id. */
  lemma ExecutedAtMostOnce(env: Env, w0: World, w: World, i: nat, j: nat)
    requires Reaches(env, w0, w)
    requires i < j < |w.log|
    requires w.log[i].event.ExecutedRelayerRefundRoot? && w.log[j].event.ExecutedRelayerRefundRoot?
    requires w.log[i].event.bundleId == w.log[j].event.bundleId
    ensures w.log[i].event.leaf.leafId != w.log[j].event.leaf.leafId
  {
    var id, log := w.log[i].event.bundleId, w.log;
    ReachableBundles(env, w0, w);
    assert BundleOk(env, w, id);
    ExecutedAt(log, i, id);
    ExecutedAt(log, j, id);
    ExecutedPrefix(log[..j], i + 1, id);
    assert log[..j][..i + 1] == log[..i + 1];
  }

  /** The bitmap of a live bundle denotes exactly the leaf ids executed under its id, deletions elsewhere included. */
  lemma BitmapIsHistory(env: Env, w0: World, w: World, id: u32, leafId: u32)
    requires Reaches(env, w0, w)
    requires id in w.accounts.bundles
    ensures Bitmap.IsClaimed(w.accounts.bundles[id].claimedBitmap, leafId) <==> ExecutedLeaf(w.log, id, leafId)
    ensures Bitmap.FitsAccount(w.accounts.bundles[id].claimedBitmap, w.accounts.bundles[id].dataLen)
    ensures id < w.accounts.state.rootBundleId
  {
    ReachableBundles(env, w0, w);
    assert BundleOk(env, w, id);
    assert leafId in Bitmap.Ids(w.accounts.bundles[id].claimedBitmap)
      <==> Bitmap.IsClaimed(w.accounts.bundles[id].claimedBitmap, leafId);
  }
}
