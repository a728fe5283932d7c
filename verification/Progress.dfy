/** What a run that has come so far still allows: promises about transactions that must go through. */
module Progress {
  import opened Binary
  import opened Results
  import opened Leaves
  import opened Ledger
  import opened CallData
  import opened Spoke
  import opened Refunds
  import opened Bundles
  import opened Fills
  import opened Deposits
  import opened Accounting
  import opened Entitlements
  import opened Acceptance
  import opened Frames
  import Bitmap
  import Merkle

  /** The transaction is logged with the event, and the accounts are those it leaves. */
  ghost predicate GoesThrough(env: Env, w: World, t: Transaction)
  {
    var v := Next(env, w, t);
    |v.log| == |w.log| + 1 && v.log[..|w.log|] == w.log && v.log[|w.log|].step == t.step
  }

  lemma GoesThroughIfOk(env: Env, w: World, t: Transaction)
    ensures GoesThrough(env, w, t) <==> Apply(env, w.accounts, t.now, t.step).Ok?
  {
  }

  predicate HasKey(env: Env, signer: Pubkey)
  {
    signer != env.statePda && signer != env.selfAuthority
  }

  // ---------- Deposits ----------

  /** In every run a deposit goes through exactly when it meets the terms that initialization set. */
  lemma {:induction false} DepositGoesThrough(env: Env, w0: World, w: World, t: Transaction)
    requires Distinct(env.tags) && Reaches(env, w0, w) && t.step.Deposit? && HasKey(env, t.step.signer)
    ensures GoesThrough(env, w, t) <==>
              var l, args, route := w.accounts.ledger, t.step.args,
                                    RouteKey(t.step.args.inputToken, t.step.args.destinationChainId);
              var vault := env.ata(env.statePda, args.inputToken);
              && !w.accounts.state.pausedDeposits && route in w.accounts.routes && w.accounts.routes[route]
              && Owns(l, t.step.signer, t.step.userToken, args.inputToken)
              && InWindow(w0.accounts.state, t.now, args.quoteTimestamp, args.fillDeadline)
              && t.now + w0.accounts.state.fillDeadlineBuffer <= U32_MAX
              && args.inputAmount <= Balance(l, t.step.userToken)
              && Balance(l, vault) + args.inputAmount <= U64_MAX
              && w0.accounts.state.numberOfDeposits + Count(w.log) < U32_MAX
  {
    var a, step := w.accounts, t.step;
    GoesThroughIfOk(env, w, t);
    DepositAccepted(env, a, t.now, step.signer, step.userToken, step.args);
    SettingsNeverChange(env, w0, w);
    ReachableCount(env, w0, w);
    ReachableRoutes(env, w0, w);
  }

  // ---------- Relays ----------

  /** In every run a relay that the log does not show filled can be filled fast, once the rest is in order. */
  lemma {:induction false} FillGoesThrough(env: Env, w0: World, w: World, t: Transaction)
    requires Reaches(env, w0, w) && t.step.Fill? && HasKey(env, t.step.signer)
    ensures GoesThrough(env, w, t) <==>
              var l, rd, from := w.accounts.ledger, t.step.rd, t.step.relayerToken;
              var to := env.ata(rd.recipient, rd.outputToken);
              && !w.accounts.state.pausedFills
              && Owns(l, t.step.signer, from, rd.outputToken) && Owns(l, rd.recipient, to, rd.outputToken)
              && t.step.relayHash == env.keccak(RelayPreimage(rd, w.accounts.state.chainId))
              && MayFill(rd, t.now, t.step.signer) && t.now <= rd.fillDeadline
              && StatusAfter(Visits(w.log, t.step.relayHash)) != Some(Filled)
              && (from == to || (rd.outputAmount <= Balance(l, from) && Balance(l, to) + rd.outputAmount <= U64_MAX))
  {
    var step := t.step;
    GoesThroughIfOk(env, w, t);
    FillAccepted(env, w.accounts, t.now, step.signer, step.relayHash, step.rd, step.repaymentChainId,
                 step.repaymentAddress, step.relayerToken);
    ReachableFills(env, w0, w, step.relayHash);
  }

  /** The terms of a slow fill that have nothing to do with who asked for it. */
  ghost predicate SlowFillable(env: Env, w: World, t: Transaction, tree: Merkle.Tree, i: nat)
    requires t.step.ExecuteSlowFill?
  {
    var a, rd, step := w.accounts, t.step.rd, t.step;
    var to, vault := env.ata(rd.recipient, rd.outputToken), env.ata(env.statePda, rd.outputToken);
    && HasKey(env, step.signer)
    && step.relayHash == env.keccak(RelayPreimage(rd, a.state.chainId))
    && t.now <= rd.fillDeadline
    && i < |Merkle.Leaves(tree)|
    && Merkle.Leaves(tree)[i] == SlowFillBytes(rd, a.state.chainId, step.updatedOutputAmount)
    && step.proof == Merkle.ProofOf(env.keccak, tree, i)
    && step.bundleId in a.bundles && a.bundles[step.bundleId].slowRelayRoot == Merkle.Root(env.keccak, tree)
    && Owns(a.ledger, rd.recipient, to, rd.outputToken) && OwnsVault(env, a.ledger, rd.outputToken)
    && step.updatedOutputAmount <= Balance(a.ledger, vault)
    && HasRoom(a.ledger, vault, to, step.updatedOutputAmount)
  }

  /** The leaf of a live bundle's slow tree executes whenever the relay's account is there and not filled. */
  lemma {:induction false} GrantedSlowFill(env: Env, w: World, t: Transaction, tree: Merkle.Tree, i: nat)
    requires t.step.ExecuteSlowFill? && SlowFillable(env, w, t, tree, i)
    requires t.step.relayHash in w.accounts.fills && w.accounts.fills[t.step.relayHash].status != Filled
    ensures GoesThrough(env, w, t)
    ensures var e := Next(env, w, t).log[|w.log|].event;
            e == FilledV3Relay(t.step.rd, 0, DEFAULT_PUBKEY, t.step.updatedOutputAmount, SlowFill)
  {
    var step := t.step;
    Merkle.Completeness(env.keccak, tree, i);
    GoesThroughIfOk(env, w, t);
    SlowFillAccepted(env, w.accounts, t.now, step.relayHash, step.rd, step.updatedOutputAmount, step.bundleId,
                     step.proof);
  }

  /** In every run, a relay last heard of as requested gets its granted slow fill, in time and funded. */
  lemma {:induction false} RequestedSlowFillGoesThrough(env: Env, w0: World, w: World, t: Transaction,
                                                        tree: Merkle.Tree, i: nat)
    requires Reaches(env, w0, w) && t.step.ExecuteSlowFill? && SlowFillable(env, w, t, tree, i)
    requires StatusAfter(Visits(w.log, t.step.relayHash)) == Some(RequestedSlowFill)
    ensures GoesThrough(env, w, t)
    ensures StatusAfter(Visits(Next(env, w, t).log, t.step.relayHash)) == Some(Filled)
  {
    ReachableFills(env, w0, w, t.step.relayHash);
    GrantedSlowFill(env, w, t, tree, i);
    SlowFillIsLastVisit(Next(env, w, t).log, t.step.relayHash);
  }

  lemma SlowFillIsLastVisit(log: seq<Entry>, h: Hash)
    requires log != [] && Visited(log[|log| - 1], h)
    requires var e := log[|log| - 1].event;
             e.FilledV3Relay? && e.fillType == SlowFill
    ensures StatusAfter(Visits(log, h)) == Some(Filled)
  {
  }

  /** In every run a relay not seen before is requested exactly in the time between exclusivity and deadline. */
  lemma {:induction false} RequestGoesThrough(env: Env, w0: World, w: World, t: Transaction)
    requires Reaches(env, w0, w) && t.step.RequestSlowFill? && HasKey(env, t.step.signer)
    ensures GoesThrough(env, w, t) <==>
              && !w.accounts.state.pausedFills
              && t.step.relayHash == env.keccak(RelayPreimage(t.step.rd, w.accounts.state.chainId))
              && t.step.rd.exclusivityDeadline < t.now <= t.step.rd.fillDeadline
              && StatusAfter(Visits(w.log, t.step.relayHash)) == None
    ensures GoesThrough(env, w, t) ==>
              StatusAfter(Visits(Next(env, w, t).log, t.step.relayHash)) == Some(RequestedSlowFill)
  {
    var h := t.step.relayHash;
    GoesThroughIfOk(env, w, t);
    RequestStops(env, w.accounts, t.now, t.step.signer, h, t.step.rd);
    FillHistory(env, w0, w, h);
    if GoesThrough(env, w, t) {
      var log := Next(env, w, t).log;
      assert log[..|log| - 1] == w.log;
      assert StatusAfter(Visits(w.log, h) + [VisitOf(log[|w.log|])]) == Some(RequestedSlowFill);
    }
  }

  lemma ReachesOneMore(env: Env, w0: World, w: World, t: Transaction)
    requires Reaches(env, w0, w) && w.clock <= t.now
    ensures Reaches(env, w0, Next(env, w, t))
  {
    var ts :| Chronological(w0.clock, ts) && w == Run(env, w0, ts);
    RunOneMore(env, w0, ts, t);
  }

  lemma {:induction false} RunOneMore(env: Env, w: World, ts: seq<Transaction>, t: Transaction)
    requires Chronological(w.clock, ts) && Run(env, w, ts).clock <= t.now
    ensures Chronological(w.clock, ts + [t]) && Run(env, w, ts + [t]) == Next(env, Run(env, w, ts), t)
    decreases |ts|
  {
    if ts == [] {
      assert [t][1..] == [] && Run(env, Next(env, w, t), []) == Next(env, w, t);
      assert ts + [t] == [t];
    } else {
      RunOneMore(env, Next(env, w, ts[0]), ts[1..], t);
      assert (ts + [t])[0] == ts[0] && (ts + [t])[1..] == ts[1..] + [t];
    }
  }

  /** Request, then execute: a timely request followed by a timely, granted and funded slow fill goes through. */
  lemma {:induction false} RequestThenSlowFill(env: Env, w0: World, w: World, request: Transaction,
                                               execute: Transaction, tree: Merkle.Tree, i: nat)
    requires Reaches(env, w0, w) && w.clock <= request.now
    requires request.step.RequestSlowFill? && GoesThrough(env, w, request)
    requires execute.step.ExecuteSlowFill? && execute.step.relayHash == request.step.relayHash
    requires SlowFillable(env, w, execute, tree, i)
    requires HasKey(env, request.step.signer)
    ensures GoesThrough(env, Next(env, w, request), execute)
  {
    var v, h := Next(env, w, request), request.step.relayHash;
    RequestGoesThrough(env, w0, w, request);
    ReachesOneMore(env, w0, w, request);
    ReachableFills(env, w0, v, h);
    RequestMovesNothing(env, w, request);
    GrantedSlowFill(env, v, execute, tree, i);
  }

  lemma RequestMovesNothing(env: Env, w: World, t: Transaction)
    requires t.step.RequestSlowFill?
    ensures var b := Next(env, w, t).accounts;
            b.ledger == w.accounts.ledger && b.bundles == w.accounts.bundles && b.state == w.accounts.state
  {
  }

  /** The relayer on record may close a status account exactly once the deadline has passed. */
  lemma {:induction false} CloseGoesThrough(env: Env, w0: World, w: World, t: Transaction)
    requires Reaches(env, w0, w) && t.step.CloseFill? && HasKey(env, t.step.signer)
    ensures GoesThrough(env, w, t) <==>
              && StatusAfter(Visits(w.log, t.step.relayHash)).Some?
              && t.step.signer == RelayerIn(w.log, t.step.relayHash)
              && t.step.relayHash == env.keccak(RelayPreimage(t.step.rd, w.accounts.state.chainId))
              && t.step.rd.fillDeadline < t.now
  {
    GoesThroughIfOk(env, w, t);
    CloseFillStops(env, w.accounts, t.now, t.step.signer, t.step.relayHash, t.step.rd);
    ReachableFills(env, w0, w, t.step.relayHash);
  }

  // ---------- Refunds ----------

  /**
   In every run, a well-formed leaf of this chain, in the tree of a live bundle and not executed under its id
   before, executes with its proof exactly when the vault is there, every entry can be paid, and the debt to
   the hub has room.
   */
  lemma {:induction false} LeafGoesThrough(env: Env, w0: World, w: World, t: Transaction, tree: Merkle.Tree, i: nat)
    requires Reaches(env, w0, w) && t.step.ExecuteRefund? && HasKey(env, t.step.signer)
    requires i < |Merkle.Leaves(tree)| && Merkle.Leaves(tree)[i] == RefundLeafBytes(t.step.leaf)
    requires t.step.proof == Merkle.ProofOf(env.keccak, tree, i)
    requires Live(w.log, t.step.bundleId) && t.step.bundleId in Relayed(w.log)
    requires Relayed(w.log)[t.step.bundleId].refund == Merkle.Root(env.keccak, tree)
    requires EqualLengths(t.step.leaf) && t.step.leaf.chainId == w.accounts.state.chainId
    requires !ExecutedLeaf(w.log, t.step.bundleId, t.step.leaf.leafId)
    ensures GoesThrough(env, w, t) <==>
              var a, leaf := w.accounts, t.step.leaf;
              var v := Vault(env.ata(env.statePda, leaf.mint), env.statePda, leaf.mint);
              && OwnsVault(env, a.ledger, leaf.mint)
              && EntriesFaults(v, a.ledger, leaf, t.step.infos, |leaf.refundAmounts|) == {}
              && TotalReturned(w.log, leaf.mint) - TotalBridged(w.log, leaf.mint) + leaf.amountToReturn <= U64_MAX
  {
    var a, step, id := w.accounts, t.step, t.step.bundleId;
    GoesThroughIfOk(env, w, t);
    LiveBundlesAreHistory(env, w0, w, id);
    ReachableBundles(env, w0, w);
    assert BundleOk(env, w, id);
    BitmapIsHistory(env, w0, w, id, step.leaf.leafId);
    Merkle.Completeness(env.keccak, tree, i);
    BooksBalance(env, w0, w, ClaimKey(step.leaf.mint, step.leaf.mint));
    RefundStops(env, a, step.signer, id, step.leaf, step.proof, step.infos);
  }

  /** In every run, what was deferred and not yet claimed can be claimed once the vault holds it. */
  lemma {:induction false} DeferredIsClaimable(env: Env, w0: World, w: World, t: Transaction)
    requires Reaches(env, w0, w) && t.step.Claim? && HasKey(env, t.step.signer)
    ensures GoesThrough(env, w, t) <==>
              var l, key := w.accounts.ledger, t.step.key;
              var vault, due := env.ata(env.statePda, key.mint), TotalDeferred(w.log, key) - TotalClaimed(w.log, key);
              && due > 0
              && OpenerIn(w0.accounts.ledger.claims, w.log, key) == Some(t.step.initializer)
              && OwnsVault(env, l, key.mint)
              && key.tokenAccount in l.tokens && l.tokens[key.tokenAccount].mint == key.mint
              && due <= Balance(l, vault)
              && (vault == key.tokenAccount || Balance(l, key.tokenAccount) + due <= U64_MAX)
  {
    GoesThroughIfOk(env, w, t);
    BooksBalance(env, w0, w, t.step.key);
    ClaimAccountsAreHistory(env, w0, w, t.step.key);
    ClaimStops(env, w.accounts, t.step.initializer, t.step.key);
  }

  // ---------- The bridge and the owner ----------

  /** In every run, what was authorised and not yet bridged can be bridged by anyone, as far as the vault holds it. */
  lemma {:induction false} BridgeGoesThrough(env: Env, w0: World, w: World, t: Transaction)
    requires Distinct(env.tags) && Reaches(env, w0, w) && t.step.Bridge? && HasKey(env, t.step.signer)
    ensures GoesThrough(env, w, t) <==>
              var mint := t.step.mint;
              && mint in MintsExecuted(w.log) && OwnsVault(env, w.accounts.ledger, mint)
              && t.step.amount <= TotalReturned(w.log, mint) - TotalBridged(w.log, mint)
              && t.step.amount <= Balance(w.accounts.ledger, env.ata(env.statePda, mint))
  {
    GoesThroughIfOk(env, w, t);
    BooksBalance(env, w0, w, ClaimKey(t.step.mint, t.step.mint));
    SettingsNeverChange(env, w0, w);
    BridgeStops(env, w.accounts, t.step.mint, t.step.amount);
  }

  /** In every run the owner can relay a bundle until the ids run out; the next id is never taken. */
  lemma {:induction false} RelayGoesThrough(env: Env, w0: World, w: World, t: Transaction)
    requires Reaches(env, w0, w) && t.step.Admin? && t.step.call.RelayRootBundle? && HasKey(env, t.step.signer)
    ensures GoesThrough(env, w, t) <==>
              t.step.signer == w.accounts.state.owner && w.accounts.state.rootBundleId < U32_MAX
  {
    GoesThroughIfOk(env, w, t);
    ReachableBundles(env, w0, w);
    assert BundleOk(env, w, w.accounts.state.rootBundleId);
    AdministerStops(env, w.accounts, t.step.signer, t.step.call, t.step.mintAccount);
  }
}
