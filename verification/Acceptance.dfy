/**
 When a step goes through. For each step the faults that can stop it are listed, each on the accounts and the
 arguments alone and with its error. A step goes through exactly when it has no fault, and fails with the error
 of one it has.
 */
module Acceptance {
  import opened Binary
  import opened Results
  import opened Leaves
  import opened Ledger
  import opened CallData
  import opened Spoke
  import opened Refunds
  import opened Deposits
  import opened Administration
  import Bitmap
  import Merkle

  function Fault(present: bool, error: Error): set<Error>
  {
    if present then {error} else {}
  }

  /** The outcome is a failure exactly when there are faults, and then the error is among them. */
  ghost predicate Stops(faults: set<Error>, outcome: Outcome)
  {
    && (outcome.Ok? <==> faults == {})
    && (outcome.Err? ==> outcome.error in faults)
  }

  // ---------- Accounts ----------

  /** The account exists, for this mint, and this owner may spend from it. */
  predicate Owns(l: Ledger, owner: Pubkey, key: Pubkey, mint: Pubkey)
  {
    key in l.tokens && l.tokens[key] == TokenAccount(mint, owner, l.tokens[key].amount)
  }

  /** The program owns the associated token account of the mint. */
  predicate OwnsVault(env: Env, l: Ledger, mint: Pubkey)
  {
    Owns(l, env.statePda, env.ata(env.statePda, mint), mint)
  }

  predicate HasRoom(l: Ledger, from: Pubkey, to: Pubkey, amount: u64)
  {
    from == to || Balance(l, to) + amount <= U64_MAX
  }

  /** The faults of moving an amount between two existing accounts of one mint. */
  function MoveFaults(l: Ledger, from: Pubkey, to: Pubkey, amount: u64): set<Error>
  {
    Fault(Balance(l, from) < amount, InsufficientFunds)
    + Fault(!HasRoom(l, from, to, amount), ArithmeticOverflow)
  }

  lemma MoveStops(l: Ledger, from: Pubkey, to: Pubkey, mint: Pubkey, owner: Pubkey, amount: u64)
    requires Owns(l, owner, from, mint) && to in l.tokens && l.tokens[to].mint == mint
    ensures var r := Transfer(l, from, to, mint, owner, amount);
            && (r.Ok? <==> MoveFaults(l, from, to, amount) == {})
            && (r.Err? ==> r.error in MoveFaults(l, from, to, amount))
  {
  }

  // ---------- Deposits ----------

  function DepositFaults(env: Env, a: Accounts, now: u32, signer: Pubkey, userToken: Pubkey, args: DepositArgs)
    : set<Error>
  {
    var l, s, route := a.ledger, a.state, RouteKey(args.inputToken, args.destinationChainId);
    Fault(s.pausedDeposits, DepositsArePaused)
    + Fault(route !in a.routes, AccountNotInitialized)
    + Fault(route in a.routes && !a.routes[route], DisabledRoute)
    + Fault(!Owns(l, signer, userToken, args.inputToken) || !OwnsVault(env, l, args.inputToken), TokenConstraint)
    + Fault(args.quoteTimestamp + s.depositQuoteTimeBuffer < now, InvalidQuoteTimestamp)
    + Fault(args.fillDeadline < now || now + s.fillDeadlineBuffer < args.fillDeadline, InvalidFillDeadline)
    + Fault(now < args.quoteTimestamp || now + s.fillDeadlineBuffer > U32_MAX, ArithmeticOverflow)
    + MoveFaults(l, userToken, env.ata(env.statePda, args.inputToken), args.inputAmount)
    + Fault(s.numberOfDeposits == U32_MAX, ArithmeticOverflow)
  }

  lemma DepositStops(env: Env, a: Accounts, now: u32, signer: Pubkey, userToken: Pubkey, args: DepositArgs)
    ensures Stops(DepositFaults(env, a, now, signer, userToken, args),
                  DepositV3(env, a, now, signer, userToken, args))
  {
    var vault := env.ata(env.statePda, args.inputToken);
    if Owns(a.ledger, signer, userToken, args.inputToken) && OwnsVault(env, a.ledger, args.inputToken) {
      MoveStops(a.ledger, userToken, vault, args.inputToken, signer, args.inputAmount);
    }
  }

  /** A deposit goes through exactly when nothing stands in its way; its times are those of the described window. */
  lemma DepositAccepted(env: Env, a: Accounts, now: u32, signer: Pubkey, userToken: Pubkey, args: DepositArgs)
    ensures DepositV3(env, a, now, signer, userToken, args).Ok? <==>
              var l, route := a.ledger, RouteKey(args.inputToken, args.destinationChainId);
              var vault := env.ata(env.statePda, args.inputToken);
              && !a.state.pausedDeposits && route in a.routes && a.routes[route]
              && Owns(l, signer, userToken, args.inputToken) && OwnsVault(env, l, args.inputToken)
              && InWindow(a.state, now, args.quoteTimestamp, args.fillDeadline)
              && now + a.state.fillDeadlineBuffer <= U32_MAX
              && args.inputAmount <= Balance(l, userToken) && HasRoom(l, userToken, vault, args.inputAmount)
              && a.state.numberOfDeposits < U32_MAX
  {
    DepositStops(env, a, now, signer, userToken, args);
  }

  // ---------- Fast fills ----------

  /** Nobody but the exclusive relayer may fill while exclusivity lasts; the all-zero key is nobody. */
  predicate MayFill(rd: RelayData, now: u32, signer: Pubkey)
  {
    rd.exclusivityDeadline < now || signer == rd.exclusiveRelayer || AllZero(rd.exclusiveRelayer)
  }

  predicate IsFilled(a: Accounts, relayHash: Hash)
  {
    relayHash in a.fills && a.fills[relayHash].status == Filled
  }

  function FillFaults(env: Env, a: Accounts, now: u32, signer: Pubkey, relayHash: Hash, rd: RelayData,
                      relayerToken: Pubkey): set<Error>
  {
    var l, to := a.ledger, env.ata(rd.recipient, rd.outputToken);
    Fault(a.state.pausedFills, FillsArePaused)
    + Fault(!Owns(l, signer, relayerToken, rd.outputToken) || !Owns(l, rd.recipient, to, rd.outputToken),
            TokenConstraint)
    + Fault(relayHash != env.keccak(RelayPreimage(rd, a.state.chainId)), InvalidRelayHash)
    + Fault(!MayFill(rd, now, signer), NotExclusiveRelayer)
    + Fault(rd.fillDeadline < now, ExpiredFillDeadline)
    + Fault(IsFilled(a, relayHash), RelayFilled)
    + (if relayerToken == to then {} else MoveFaults(l, relayerToken, to, rd.outputAmount))
  }

  lemma ZeroKey(k: Pubkey)
    ensures AllZero(k) <==> k == DEFAULT_PUBKEY
  {
    ZerosAreZero(32);
    if AllZero(k) {
      assert forall i :: 0 <= i < 32 ==> k[i] == DEFAULT_PUBKEY[i];
    }
  }

  lemma {:induction false} ZerosAreZero(n: nat)
    ensures AllZero(Zeros(n))
  {
    if n > 0 {
      ZerosAreZero(n - 1);
    }
  }

  lemma FillStops(env: Env, a: Accounts, now: u32, signer: Pubkey, relayHash: Hash, rd: RelayData,
                  repaymentChainId: u64, repaymentAddress: Pubkey, relayerToken: Pubkey)
    ensures Stops(FillFaults(env, a, now, signer, relayHash, rd, relayerToken),
                  FillV3Relay(env, a, now, signer, relayHash, rd, repaymentChainId, repaymentAddress, relayerToken))
  {
    var to := env.ata(rd.recipient, rd.outputToken);
    ZeroKey(rd.exclusiveRelayer);
    if Owns(a.ledger, signer, relayerToken, rd.outputToken) && Owns(a.ledger, rd.recipient, to, rd.outputToken) {
      MoveStops(a.ledger, relayerToken, to, rd.outputToken, signer, rd.outputAmount);
    }
  }

  /** A fill goes through exactly when nothing stands in its way. */
  lemma FillAccepted(env: Env, a: Accounts, now: u32, signer: Pubkey, relayHash: Hash, rd: RelayData,
                     repaymentChainId: u64, repaymentAddress: Pubkey, relayerToken: Pubkey)
    ensures FillV3Relay(env, a, now, signer, relayHash, rd, repaymentChainId, repaymentAddress, relayerToken).Ok? <==>
              var l, to := a.ledger, env.ata(rd.recipient, rd.outputToken);
              && !a.state.pausedFills
              && Owns(l, signer, relayerToken, rd.outputToken) && Owns(l, rd.recipient, to, rd.outputToken)
              && relayHash == env.keccak(RelayPreimage(rd, a.state.chainId))
              && MayFill(rd, now, signer) && now <= rd.fillDeadline && !IsFilled(a, relayHash)
              && (relayerToken == to
                  || (rd.outputAmount <= Balance(l, relayerToken) && Balance(l, to) + rd.outputAmount <= U64_MAX))
  {
    FillStops(env, a, now, signer, relayHash, rd, repaymentChainId, repaymentAddress, relayerToken);
  }

  function CloseFillFaults(env: Env, a: Accounts, now: u32, signer: Pubkey, relayHash: Hash, rd: RelayData): set<Error>
  {
    Fault(relayHash !in a.fills, AccountNotInitialized)
    + Fault(relayHash in a.fills && signer != a.fills[relayHash].relayer, NotRelayer)
    + Fault(relayHash != env.keccak(RelayPreimage(rd, a.state.chainId)), InvalidRelayHash)
    + Fault(now <= rd.fillDeadline, CanOnlyCloseFillStatusPdaIfFillDeadlinePassed)
  }

  lemma CloseFillStops(env: Env, a: Accounts, now: u32, signer: Pubkey, relayHash: Hash, rd: RelayData)
    ensures Stops(CloseFillFaults(env, a, now, signer, relayHash, rd),
                  CloseFillPda(env, a, now, signer, relayHash, rd))
  {
  }

  // ---------- Slow fills ----------

  function RequestFaults(env: Env, a: Accounts, now: u32, relayHash: Hash, rd: RelayData): set<Error>
  {
    Fault(a.state.pausedFills, FillsArePaused)
    + Fault(relayHash != env.keccak(RelayPreimage(rd, a.state.chainId)), InvalidRelayHash)
    + Fault(now <= rd.exclusivityDeadline, NoSlowFillsInExclusivityWindow)
    + Fault(rd.fillDeadline < now, ExpiredFillDeadline)
    + Fault(relayHash in a.fills && a.fills[relayHash].status != Unfilled, InvalidSlowFillRequest)
  }

  lemma RequestStops(env: Env, a: Accounts, now: u32, signer: Pubkey, relayHash: Hash, rd: RelayData)
    ensures Stops(RequestFaults(env, a, now, relayHash, rd), RequestV3SlowFill(env, a, now, signer, relayHash, rd))
    ensures var r := RequestV3SlowFill(env, a, now, signer, relayHash, rd);
            r.Ok? ==> r.value.event == RequestedV3SlowFill(rd)
  {
  }

  function SlowFillFaults(env: Env, a: Accounts, now: u32, relayHash: Hash, rd: RelayData, updatedOutputAmount: u64,
                          bundleId: u32, proof: seq<Hash>): set<Error>
  {
    var l, to, vault := a.ledger, env.ata(rd.recipient, rd.outputToken), env.ata(env.statePda, rd.outputToken);
    var leaf := env.keccak(SlowFillBytes(rd, a.state.chainId, updatedOutputAmount));
    Fault(bundleId !in a.bundles || relayHash !in a.fills, AccountNotInitialized)
    + Fault(relayHash != env.keccak(RelayPreimage(rd, a.state.chainId)), InvalidRelayHash)
    + Fault(!Owns(l, rd.recipient, to, rd.outputToken) || !OwnsVault(env, l, rd.outputToken), TokenConstraint)
    + Fault(bundleId in a.bundles
            && Merkle.ProcessProof(env.keccak, leaf, proof) != a.bundles[bundleId].slowRelayRoot, InvalidMerkleProof)
    + Fault(rd.fillDeadline < now, ExpiredFillDeadline)
    + Fault(IsFilled(a, relayHash), RelayFilled)
    + MoveFaults(l, vault, to, updatedOutputAmount)
  }

  lemma SlowFillStops(env: Env, a: Accounts, now: u32, relayHash: Hash, rd: RelayData, updatedOutputAmount: u64,
                      bundleId: u32, proof: seq<Hash>)
    ensures Stops(SlowFillFaults(env, a, now, relayHash, rd, updatedOutputAmount, bundleId, proof),
                  ExecuteV3SlowRelayLeaf(env, a, now, relayHash, rd, updatedOutputAmount, bundleId, proof))
  {
    var to, vault := env.ata(rd.recipient, rd.outputToken), env.ata(env.statePda, rd.outputToken);
    if Owns(a.ledger, rd.recipient, to, rd.outputToken) && OwnsVault(env, a.ledger, rd.outputToken) {
      MoveStops(a.ledger, vault, to, rd.outputToken, env.statePda, updatedOutputAmount);
    }
  }

  /** A slow fill goes through exactly when nothing stands in its way; a requested relay is no obstacle. */
  lemma SlowFillAccepted(env: Env, a: Accounts, now: u32, relayHash: Hash, rd: RelayData, updatedOutputAmount: u64,
                         bundleId: u32, proof: seq<Hash>)
    ensures ExecuteV3SlowRelayLeaf(env, a, now, relayHash, rd, updatedOutputAmount, bundleId, proof).Ok? <==>
              var l, to := a.ledger, env.ata(rd.recipient, rd.outputToken);
              var vault := env.ata(env.statePda, rd.outputToken);
              var leaf := env.keccak(SlowFillBytes(rd, a.state.chainId, updatedOutputAmount));
              && bundleId in a.bundles
              && Merkle.ProcessProof(env.keccak, leaf, proof) == a.bundles[bundleId].slowRelayRoot
              && relayHash in a.fills && a.fills[relayHash].status != Filled
              && relayHash == env.keccak(RelayPreimage(rd, a.state.chainId))
              && Owns(l, rd.recipient, to, rd.outputToken) && OwnsVault(env, l, rd.outputToken)
              && now <= rd.fillDeadline
              && updatedOutputAmount <= Balance(l, vault) && HasRoom(l, vault, to, updatedOutputAmount)
  {
    SlowFillStops(env, a, now, relayHash, rd, updatedOutputAmount, bundleId, proof);
  }

  // ---------- Refunds ----------

  /** The payee's own token account was passed, writable. */
  predicate PassesToken(v: Vault, l: Ledger, infos: seq<AccountInfo>, i: nat, payee: Pubkey)
  {
    && i < |infos| && infos[i] == AccountInfo(TokenKey(payee), true)
    && payee in l.tokens && l.tokens[payee].mint == v.mint
  }

  /** The payee's claim account was passed, writable. */
  predicate PassesClaim(v: Vault, l: Ledger, infos: seq<AccountInfo>, i: nat, payee: Pubkey)
  {
    var key := ClaimKey(v.mint, payee);
    i < |infos| && infos[i] == AccountInfo(ClaimAccountKey(key), true) && key in l.claims
  }

  /** One entry is paid exactly through the payee's token account, with funds and room, or its claim, with room. */
  lemma EntryAccepted(v: Vault, l: Ledger, infos: seq<AccountInfo>, i: nat, payee: Pubkey, amount: u64)
    ensures var r := PayOne(v, l, infos, i, payee, amount);
            && (r.Ok? <==>
                  || (PassesToken(v, l, infos, i, payee) && Owns(l, v.authority, v.key, v.mint)
                      && amount <= Balance(l, v.key) && HasRoom(l, v.key, payee, amount))
                  || (PassesClaim(v, l, infos, i, payee)
                      && CurrentClaim(l, ClaimKey(v.mint, payee)) + amount <= U64_MAX))
            && (r == Err(AccountNotEnoughKeys) <==> i >= |infos|)
            && (r == Err(InvalidRefund) <==>
                  i < |infos| && !PassesToken(v, l, infos, i, payee) && !PassesClaim(v, l, infos, i, payee))
  {
    if PassesToken(v, l, infos, i, payee) && Owns(l, v.authority, v.key, v.mint) {
      MoveStops(l, v.key, payee, v.mint, v.authority, amount);
    }
  }

  /** What the leaf's first n entries take out of the vault. */
  function Drawn(v: Vault, leaf: RefundLeaf, infos: seq<AccountInfo>, n: nat): nat
    requires EqualLengths(leaf) && n <= |leaf.refundAmounts|
  {
    if n == 0 then 0
    else Drawn(v, leaf, infos, n - 1)
         + (if leaf.refundAccounts[n - 1] != v.key && !DeferredAt(infos, n - 1) then leaf.refundAmounts[n - 1] else 0)
  }

  /** What they pay to an account directly. */
  function Direct(leaf: RefundLeaf, infos: seq<AccountInfo>, payee: Pubkey, n: nat): int
    requires EqualLengths(leaf) && n <= |leaf.refundAmounts|
  {
    Owed(leaf, payee, n) - Deferred(leaf, infos, payee, n)
  }

  /** The faults of entry i on the ledger l, on which the entries before it are still to be paid. */
  function EntryFaults(v: Vault, l: Ledger, leaf: RefundLeaf, infos: seq<AccountInfo>, i: nat): set<Error>
    requires EqualLengths(leaf) && i < |leaf.refundAmounts|
  {
    var payee, amount := leaf.refundAccounts[i], leaf.refundAmounts[i];
    var token, claim := PassesToken(v, l, infos, i, payee), PassesClaim(v, l, infos, i, payee);
    Fault(i >= |infos|, AccountNotEnoughKeys)
    + Fault(i < |infos| && !token && !claim, InvalidRefund)
    + Fault(token && Balance(l, v.key) - Drawn(v, leaf, infos, i) < amount, InsufficientFunds)
    + Fault(token && payee != v.key && Balance(l, payee) + Direct(leaf, infos, payee, i) + amount > U64_MAX,
            ArithmeticOverflow)
    + Fault(claim && CurrentClaim(l, ClaimKey(v.mint, payee)) + Deferred(leaf, infos, payee, i) + amount > U64_MAX,
            ArithmeticOverflow)
  }

  function EntriesFaults(v: Vault, l: Ledger, leaf: RefundLeaf, infos: seq<AccountInfo>, n: nat): set<Error>
    requires EqualLengths(leaf) && n <= |leaf.refundAmounts|
  {
    if n == 0 then {}
    else EntriesFaults(v, l, leaf, infos, n - 1) + EntryFaults(v, l, leaf, infos, n - 1)
  }

  lemma {:induction false} VaultIsDrawn(v: Vault, l: Ledger, leaf: RefundLeaf, infos: seq<AccountInfo>, n: nat)
    requires EqualLengths(leaf) && n <= |leaf.refundAmounts|
    requires PayFirst(v, l, leaf, infos, n).Ok?
    ensures Balance(PayFirst(v, l, leaf, infos, n).value, v.key) == Balance(l, v.key) - Drawn(v, leaf, infos, n)
  {
    if n > 0 {
      VaultIsDrawn(v, l, leaf, infos, n - 1);
      PayOneEffect(v, PayFirst(v, l, leaf, infos, n - 1).value, infos, n - 1,
                   leaf.refundAccounts[n - 1], leaf.refundAmounts[n - 1]);
    }
  }

  /** On the ledger m that the entries before i lead to, entry i fails as its faults on l say. */
  lemma EntryStops(v: Vault, l: Ledger, leaf: RefundLeaf, infos: seq<AccountInfo>, i: nat, m: Ledger)
    requires EqualLengths(leaf) && i < |leaf.refundAmounts|
    requires Owns(l, v.authority, v.key, v.mint) && SameShape(l, m)
    requires var payee, key := leaf.refundAccounts[i], ClaimKey(v.mint, leaf.refundAccounts[i]);
             && Balance(m, v.key) == Balance(l, v.key) - Drawn(v, leaf, infos, i)
             && (payee != v.key ==> Balance(m, payee) == Balance(l, payee) + Direct(leaf, infos, payee, i))
             && CurrentClaim(m, key) == CurrentClaim(l, key) + Deferred(leaf, infos, payee, i)
    ensures var r := PayOne(v, m, infos, i, leaf.refundAccounts[i], leaf.refundAmounts[i]);
            && (r.Ok? <==> EntryFaults(v, l, leaf, infos, i) == {})
            && (r.Err? ==> r.error in EntryFaults(v, l, leaf, infos, i))
  {
    var payee, amount := leaf.refundAccounts[i], leaf.refundAmounts[i];
    assert PassesToken(v, m, infos, i, payee) <==> PassesToken(v, l, infos, i, payee);
    assert PassesClaim(v, m, infos, i, payee) <==> PassesClaim(v, l, infos, i, payee);
    assert Owns(m, v.authority, v.key, v.mint);
    EntryAccepted(v, m, infos, i, payee, amount);
    if PassesToken(v, m, infos, i, payee) {
      MoveStops(m, v.key, payee, v.mint, v.authority, amount);
    }
  }

  lemma {:induction false} EntriesStop(v: Vault, l: Ledger, leaf: RefundLeaf, infos: seq<AccountInfo>, n: nat)
    requires EqualLengths(leaf) && n <= |leaf.refundAmounts|
    requires Owns(l, v.authority, v.key, v.mint)
    ensures PayFirst(v, l, leaf, infos, n).Ok? <==> EntriesFaults(v, l, leaf, infos, n) == {}
    ensures PayFirst(v, l, leaf, infos, n).Err? ==>
              PayFirst(v, l, leaf, infos, n).error in EntriesFaults(v, l, leaf, infos, n)
  {
    if n > 0 {
      EntriesStop(v, l, leaf, infos, n - 1);
      if PayFirst(v, l, leaf, infos, n - 1).Ok? {
        var m, payee := PayFirst(v, l, leaf, infos, n - 1).value, leaf.refundAccounts[n - 1];
        PayFirstShape(v, l, leaf, infos, n - 1);
        VaultIsDrawn(v, l, leaf, infos, n - 1);
        ClaimsGrow(v, l, leaf, infos, n - 1, ClaimKey(v.mint, payee));
        if payee != v.key {
          PayeesArePaid(v, l, leaf, infos, n - 1, payee);
        }
        EntryStops(v, l, leaf, infos, n - 1, m);
      }
    }
  }

  function RefundFaults(env: Env, a: Accounts, bundleId: u32, leaf: RefundLeaf, proof: seq<Hash>,
                        infos: seq<AccountInfo>): set<Error>
  {
    var v := Vault(env.ata(env.statePda, leaf.mint), env.statePda, leaf.mint);
    Fault(bundleId !in a.bundles, AccountNotInitialized)
    + Fault(!OwnsVault(env, a.ledger, leaf.mint), TokenConstraint)
    + Fault(bundleId in a.bundles
            && Merkle.ProcessProof(env.keccak, env.keccak(RefundLeafBytes(leaf)), proof)
               != a.bundles[bundleId].relayerRefundRoot, InvalidMerkleProof)
    + Fault(leaf.chainId != a.state.chainId, InvalidChainId)
    + Fault(bundleId in a.bundles && Bitmap.IsClaimed(a.bundles[bundleId].claimedBitmap, leaf.leafId),
            ClaimedMerkleLeaf)
    + Fault(|leaf.refundAccounts| != |leaf.refundAmounts|, InvalidMerkleLeaf)
    + (if EqualLengths(leaf) then EntriesFaults(v, a.ledger, leaf, infos, |leaf.refundAmounts|) else {})
    + Fault(leaf.mint in a.liability && a.liability[leaf.mint] + leaf.amountToReturn > U64_MAX, ArithmeticOverflow)
  }

  /** A refund leaf is executed exactly when nothing stands in its way, and otherwise fails as something does. */
  lemma RefundStops(env: Env, a: Accounts, signer: Pubkey, bundleId: u32, leaf: RefundLeaf, proof: seq<Hash>,
                    infos: seq<AccountInfo>)
    ensures Stops(RefundFaults(env, a, bundleId, leaf, proof, infos),
                  ExecuteRelayerRefundLeaf(env, a, signer, bundleId, leaf, proof, infos))
  {
    if OwnsVault(env, a.ledger, leaf.mint) && EqualLengths(leaf) {
      EntriesStop(VaultFor(env, leaf.mint), a.ledger, leaf, infos, |leaf.refundAmounts|);
    }
  }

  function ClaimFaults(env: Env, a: Accounts, initializer: Pubkey, key: ClaimKey): set<Error>
  {
    var l, vault := a.ledger, env.ata(env.statePda, key.mint);
    Fault(key !in l.claims, AccountNotInitialized)
    + Fault(key in l.claims && l.claims[key].initializer != initializer, InvalidClaimInitializer)
    + Fault(!OwnsVault(env, l, key.mint) || key.tokenAccount !in l.tokens
            || l.tokens[key.tokenAccount].mint != key.mint, TokenConstraint)
    + Fault(key in l.claims && l.claims[key].amount == 0, ZeroRefundClaim)
    + (if key in l.claims then MoveFaults(l, vault, key.tokenAccount, l.claims[key].amount) else {})
  }

  lemma ClaimStops(env: Env, a: Accounts, initializer: Pubkey, key: ClaimKey)
    ensures Stops(ClaimFaults(env, a, initializer, key), ClaimRelayerRefund(env, a, initializer, key))
  {
    var l, vault := a.ledger, env.ata(env.statePda, key.mint);
    if key in l.claims && OwnsVault(env, l, key.mint) && key.tokenAccount in l.tokens
       && l.tokens[key.tokenAccount].mint == key.mint {
      MoveStops(l, vault, key.tokenAccount, key.mint, env.statePda, l.claims[key].amount);
    }
  }

  function CloseClaimFaults(a: Accounts, signer: Pubkey, key: ClaimKey): set<Error>
  {
    var claims := a.ledger.claims;
    Fault(key !in claims, AccountNotInitialized)
    + Fault(key in claims && signer != claims[key].initializer, InvalidClaimInitializer)
    + Fault(CurrentClaim(a.ledger, key) != 0, NonZeroRefundClaim)
  }

  lemma ClaimAccountsStop(a: Accounts, signer: Pubkey, key: ClaimKey)
    ensures Stops(Fault(key in a.ledger.claims, AccountAlreadyInUse), InitializeClaimAccount(a, signer, key))
    ensures Stops(CloseClaimFaults(a, signer, key), CloseClaimAccount(a, signer, key))
  {
  }

  // ---------- The bridge ----------

  function BridgeFaults(env: Env, a: Accounts, mint: Pubkey, amount: u64): set<Error>
  {
    Fault(mint !in a.liability, AccountNotInitialized)
    + Fault(!OwnsVault(env, a.ledger, mint), TokenConstraint)
    + Fault(mint in a.liability && a.liability[mint] < amount, ExceededPendingBridgeAmount)
    + Fault(Balance(a.ledger, env.ata(env.statePda, mint)) < amount, InsufficientFunds)
  }

  lemma BridgeStops(env: Env, a: Accounts, mint: Pubkey, amount: u64)
    ensures Stops(BridgeFaults(env, a, mint, amount), BridgeTokensToHubPool(env, a, mint, amount))
  {
  }

  // ---------- Administration ----------

  function CallFaults(env: Env, a: Accounts, call: AdminCall, mintAccount: Pubkey): set<Error>
  {
    match call
    case SetEnableRoute(token, _, _) =>
      Fault(mintAccount != token, InvalidMint)
      + Fault(env.ata(env.statePda, mintAccount) in a.ledger.tokens && !OwnsVault(env, a.ledger, mintAccount),
              TokenConstraint)
    case RelayRootBundle(_, _) =>
      Fault(a.state.rootBundleId in a.bundles, AccountAlreadyInUse)
      + Fault(a.state.rootBundleId == U32_MAX, ArithmeticOverflow)
    case EmergencyDeleteRootBundle(id) => Fault(id !in a.bundles, AccountNotInitialized)
    case _ => {}
  }

  /** The owner, and the program's own authority on behalf of remote messages, may make every call. */
  lemma AdministerStops(env: Env, a: Accounts, signer: Pubkey, call: AdminCall, mintAccount: Pubkey)
    ensures Stops(Fault(signer != a.state.owner && signer != env.selfAuthority, NotOwner)
                  + CallFaults(env, a, call, mintAccount), Administer(env, a, signer, call, mintAccount))
  {
  }

  function MessageFaults(env: Env, a: Accounts, transmitterSigned: bool, remoteDomain: u32, sender: Pubkey,
                         body: Bytes, mintAccount: Pubkey): set<Error>
  {
    Fault(!transmitterSigned, MissingSignature)
    + Fault(remoteDomain != a.state.remoteDomain, InvalidRemoteDomain)
    + Fault(sender != a.state.crossDomainAdmin, InvalidRemoteSender)
    + (if Translate(env.tags, body).Ok? then CallFaults(env, a, CallIn(env.tags, body), mintAccount)
       else {InvalidMessage})
  }

  /** A message is acted on exactly when it is authentic, starts with an encoded call, and that call has no fault. */
  lemma MessageStops(env: Env, a: Accounts, transmitterSigned: bool, remoteDomain: u32, sender: Pubkey, body: Bytes,
                     mintAccount: Pubkey)
    requires Distinct(env.tags)
    ensures Stops(MessageFaults(env, a, transmitterSigned, remoteDomain, sender, body, mintAccount),
                  HandleReceiveMessage(env, a, transmitterSigned, remoteDomain, sender, body, mintAccount))
    ensures Translate(env.tags, body).Ok? <==>
              exists call :: AbiEncodable(call) && AbiEncode(env.tags, call) <= body
  {
    TranslateExact(env.tags, body);
    if Translate(env.tags, body).Ok? {
      TranslateSound(env.tags, body);
      DispatchOfAnchorData(env.tags, CallIn(env.tags, body));
      assert ReceivedCall(env, body) == Some(CallIn(env.tags, body));
      AdministerStops(env, a, env.selfAuthority, CallIn(env.tags, body), mintAccount);
    } else {
      assert ReceivedCall(env, body) == None;
    }
  }

  // ---------- Any transaction ----------

  /** Outside the program, only what an account's own authority allows: the program's accounts can just be paid into. */
  function ExternalFaults(env: Env, a: Accounts, key: Pubkey, account: TokenAccount): set<Error>
  {
    var l := a.ledger;
    Fault(key in l.tokens && l.tokens[key].authority == env.statePda
          && (account.(amount := 0) != l.tokens[key].(amount := 0) || account.amount < l.tokens[key].amount),
          MissingSignature)
  }

  function Faults(env: Env, a: Accounts, now: u32, step: Step): set<Error>
  {
    match step
    case Deposit(signer, userToken, args) => DepositFaults(env, a, now, signer, userToken, args)
    case Fill(signer, relayHash, rd, _, _, relayerToken) =>
      FillFaults(env, a, now, signer, relayHash, rd, relayerToken)
    case CloseFill(signer, relayHash, rd) => CloseFillFaults(env, a, now, signer, relayHash, rd)
    case RequestSlowFill(_, relayHash, rd) => RequestFaults(env, a, now, relayHash, rd)
    case ExecuteSlowFill(_, relayHash, rd, amount, bundleId, proof) =>
      SlowFillFaults(env, a, now, relayHash, rd, amount, bundleId, proof)
    case ExecuteRefund(_, bundleId, leaf, proof, infos) => RefundFaults(env, a, bundleId, leaf, proof, infos)
    case InitializeClaim(_, key) => Fault(key in a.ledger.claims, AccountAlreadyInUse)
    case Claim(_, initializer, key) => ClaimFaults(env, a, initializer, key)
    case CloseClaim(signer, key) => CloseClaimFaults(a, signer, key)
    case Bridge(_, mint, amount) => BridgeFaults(env, a, mint, amount)
    case Admin(signer, call, mintAccount) =>
      Fault(signer != a.state.owner, NotOwner) + CallFaults(env, a, call, mintAccount)
    case TransferOwner(signer, _) => Fault(signer != a.state.owner, NotOwner)
    case Receive(_, signed, domain, sender, body, mintAccount) =>
      MessageFaults(env, a, signed, domain, sender, body, mintAccount)
    case External(_, key, account) => ExternalFaults(env, a, key, account)
  }

  /** Every transaction of a signer with a key goes through exactly when it has no fault. */
  lemma StepStops(env: Env, a: Accounts, now: u32, step: Step)
    requires Distinct(env.tags)
    requires step.signer != env.statePda && step.signer != env.selfAuthority
    ensures Stops(Faults(env, a, now, step), Apply(env, a, now, step))
  {
    match step
    case Deposit(signer, userToken, args) => DepositStops(env, a, now, signer, userToken, args);
    case Fill(signer, relayHash, rd, chain, address, relayerToken) =>
      FillStops(env, a, now, signer, relayHash, rd, chain, address, relayerToken);
    case CloseFill(signer, relayHash, rd) => CloseFillStops(env, a, now, signer, relayHash, rd);
    case RequestSlowFill(signer, relayHash, rd) => RequestStops(env, a, now, signer, relayHash, rd);
    case ExecuteSlowFill(_, relayHash, rd, amount, bundleId, proof) =>
      SlowFillStops(env, a, now, relayHash, rd, amount, bundleId, proof);
    case ExecuteRefund(signer, bundleId, leaf, proof, infos) =>
      RefundStops(env, a, signer, bundleId, leaf, proof, infos);
    case InitializeClaim(signer, key) => ClaimAccountsStop(a, signer, key);
    case Claim(_, initializer, key) => ClaimStops(env, a, initializer, key);
    case CloseClaim(signer, key) => ClaimAccountsStop(a, signer, key);
    case Bridge(_, mint, amount) => BridgeStops(env, a, mint, amount);
    case Admin(signer, call, mintAccount) => AdministerStops(env, a, signer, call, mintAccount);
    case TransferOwner(_, _) =>
    case Receive(_, signed, domain, sender, body, mintAccount) =>
      MessageStops(env, a, signed, domain, sender, body, mintAccount);
    case External(_, _, _) =>
  }
}
