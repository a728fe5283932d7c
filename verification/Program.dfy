/**
 The program itself: instructions that update its accounts in place, some of them before their last check, and
 a runtime that takes back what a failed instruction did. Each instruction is proved to be its step.
 */
module Program {
  import opened Binary
  import opened Results
  import opened Leaves
  import opened Ledger
  import opened CallData
  import opened Spoke
  import opened Encoders
  import Bitmap
  import Merkle

  lemma {:induction false} PayFirstStops(v: Vault, l: Ledger, leaf: RefundLeaf, infos: seq<AccountInfo>, i: nat, n: nat)
    requires EqualLengths(leaf) && i <= n <= |leaf.refundAmounts|
    ensures PayFirst(v, l, leaf, infos, i).Err? ==>
              PayFirst(v, l, leaf, infos, n) == PayFirst(v, l, leaf, infos, i)
  {
    if i < n {
      PayFirstStops(v, l, leaf, infos, i, n - 1);
    }
  }

  class SpokeProgram {
    const env: Env
    var state: State
    var tokens: map<Pubkey, TokenAccount>
    var claims: map<ClaimKey, ClaimAccount>
    var fills: map<Hash, FillStatusAccount>
    var bundles: map<u32, RootBundle>
    var liability: map<Pubkey, u64>
    var routes: map<RouteKey, bool>

    var clock: u32
    var log: seq<Entry>

    constructor (env: Env, accounts: Accounts, clock: u32)
      ensures this.env == env && World() == Spoke.World(accounts, clock, [])
    {
      this.env := env;
      state, tokens, claims := accounts.state, accounts.ledger.tokens, accounts.ledger.claims;
      fills, bundles, liability, routes := accounts.fills, accounts.bundles, accounts.liability, accounts.routes;
      this.clock, log := clock, [];
    }

    function Book(): Ledger
      reads this
    {
      Ledger(tokens, claims)
    }

    function Snapshot(): Accounts
      reads this
    {
      Accounts(state, Book(), fills, bundles, liability, routes)
    }

    function World(): World
      reads this
    {
      Spoke.World(Snapshot(), clock, log)
    }

    /** The instruction did what the step says: its event and its accounts, or its error. */
    ghost predicate Did(r: Result<Event, Error>, outcome: Outcome)
      reads this
    {
      match outcome
      case Ok(post) => r == Ok(post.event) && Snapshot() == post.accounts
      case Err(error) => r == Err(error)
    }

    // ---------- Tokens ----------

    method TransferChecked(from: Pubkey, to: Pubkey, mint: Pubkey, authority: Pubkey, amount: u64)
      returns (failure: Option<Error>)
      modifies this`tokens
      ensures match Transfer(old(Book()), from, to, mint, authority, amount)
              case Ok(ledger) => failure == None && Book() == ledger
              case Err(error) => failure == Some(error) && Book() == old(Book())
    {
      if from !in tokens || to !in tokens {
        return Some(AccountNotInitialized);
      }
      if tokens[from].mint != mint || tokens[to].mint != mint || tokens[from].authority != authority {
        return Some(TokenConstraint);
      }
      if tokens[from].amount < amount {
        return Some(InsufficientFunds);
      }
      if from != to {
        if tokens[to].amount + amount > U64_MAX {
          return Some(ArithmeticOverflow);
        }
        tokens := tokens[from := tokens[from].(amount := tokens[from].amount - amount)];
        tokens := tokens[to := tokens[to].(amount := tokens[to].amount + amount)];
      }
      return None;
    }

    // ---------- Instructions ----------

    method DepositV3(now: u32, signer: Pubkey, userToken: Pubkey, args: DepositArgs) returns (r: Result<Event, Error>)
      modifies this`tokens, this`state
      ensures Did(r, Spoke.DepositV3(env, old(Snapshot()), now, signer, userToken, args))
    {
      var route, vault := RouteKey(args.inputToken, args.destinationChainId), VaultFor(env, args.inputToken);
      if state.pausedDeposits {
        return Err(DepositsArePaused);
      }
      if route !in routes {
        return Err(AccountNotInitialized);
      }
      if !TokenOk(Book(), userToken, args.inputToken, signer) || !VaultOk(env, Book(), args.inputToken) {
        return Err(TokenConstraint);
      }
      if !routes[route] {
        return Err(DisabledRoute);
      }
      if now < args.quoteTimestamp {
        return Err(ArithmeticOverflow);
      }
      if now - args.quoteTimestamp > state.depositQuoteTimeBuffer {
        return Err(InvalidQuoteTimestamp);
      }
      if args.fillDeadline < now {
        return Err(InvalidFillDeadline);
      }
      if now + state.fillDeadlineBuffer > U32_MAX {
        return Err(ArithmeticOverflow);
      }
      if args.fillDeadline > now + state.fillDeadlineBuffer {
        return Err(InvalidFillDeadline);
      }
      var failure := TransferChecked(userToken, vault.key, vault.mint, signer, args.inputAmount);
      if failure.Some? {
        return Err(failure.value);
      }
      if state.numberOfDeposits == U32_MAX {
        return Err(ArithmeticOverflow);
      }
      state := state.(numberOfDeposits := state.numberOfDeposits + 1);
      return Ok(V3FundsDeposited(args, state.numberOfDeposits));
    }

    /** init_if_needed for a relay's status account. */
    method OpenFillStatus(relayHash: Hash)
      modifies this`fills
      ensures fills == if relayHash in old(fills) then old(fills)
                       else old(fills)[relayHash := FillStatusAccount(Unfilled, DEFAULT_PUBKEY)]
    {
      if relayHash !in fills {
        fills := fills[relayHash := FillStatusAccount(Unfilled, DEFAULT_PUBKEY)];
      }
    }

    /** The account constraints of a fill, which open its status account. */
    method LoadFillAccounts(signer: Pubkey, relayHash: Hash, rd: RelayData, relayerToken: Pubkey)
      returns (failure: Option<Error>)
      modifies this`fills
      ensures failure == if state.pausedFills then Some(FillsArePaused)
                         else if !TokenOk(Book(), relayerToken, rd.outputToken, signer) then Some(TokenConstraint)
                         else if !AtaOk(env, Book(), rd.recipient, rd.outputToken) then Some(TokenConstraint)
                         else if relayHash != RelayHash(env, old(Snapshot()), rd) then Some(InvalidRelayHash)
                         else None
      ensures failure == None ==>
                fills == if relayHash in old(fills) then old(fills)
                         else old(fills)[relayHash := FillStatusAccount(Unfilled, DEFAULT_PUBKEY)]
    {
      if state.pausedFills {
        return Some(FillsArePaused);
      }
      if !TokenOk(Book(), relayerToken, rd.outputToken, signer) || !AtaOk(env, Book(), rd.recipient, rd.outputToken) {
        return Some(TokenConstraint);
      }
      OpenFillStatus(relayHash);
      var expected := GetV3RelayHash(env.keccak, rd, state.chainId);
      if relayHash != expected {
        return Some(InvalidRelayHash);
      }
      return None;
    }

    /** A relayer that is its own recipient needs no transfer. */
    method PayRecipient(signer: Pubkey, rd: RelayData, relayerToken: Pubkey) returns (failure: Option<Error>)
      modifies this`tokens
      ensures var to := env.ata(rd.recipient, rd.outputToken);
              var paid := if relayerToken == to then Ok(old(Book()))
                          else Transfer(old(Book()), relayerToken, to, rd.outputToken, signer, rd.outputAmount);
              match paid
              case Ok(ledger) => failure == None && Book() == ledger
              case Err(error) => failure == Some(error)
    {
      var recipientToken := env.ata(rd.recipient, rd.outputToken);
      if relayerToken != recipientToken {
        failure := TransferChecked(relayerToken, recipientToken, rd.outputToken, signer, rd.outputAmount);
      } else {
        failure := None;
      }
    }

    method FillV3Relay(now: u32, signer: Pubkey, relayHash: Hash, rd: RelayData, repaymentChainId: u64,
                       repaymentAddress: Pubkey, relayerToken: Pubkey) returns (r: Result<Event, Error>)
      modifies this`tokens, this`fills
      ensures Did(r, Spoke.FillV3Relay(env, old(Snapshot()), now, signer, relayHash, rd, repaymentChainId,
                                       repaymentAddress, relayerToken))
    {
      var failure := LoadFillAccounts(signer, relayHash, rd, relayerToken);
      if failure.Some? {
        return Err(failure.value);
      }
      if rd.exclusiveRelayer != signer && rd.exclusivityDeadline >= now && rd.exclusiveRelayer != DEFAULT_PUBKEY {
        return Err(NotExclusiveRelayer);
      }
      if rd.fillDeadline < now {
        return Err(ExpiredFillDeadline);
      }
      var fillType;
      match fills[relayHash].status {
        case Filled => return Err(RelayFilled);
        case RequestedSlowFill => fillType := ReplacedSlowFill;
        case Unfilled => fillType := FastFill;
      }
      failure := PayRecipient(signer, rd, relayerToken);
      if failure.Some? {
        return Err(failure.value);
      }
      fills := fills[relayHash := fills[relayHash].(status := Filled)];
      fills := fills[relayHash := fills[relayHash].(relayer := signer)];
      assert fills == old(fills)[relayHash := FillStatusAccount(Filled, signer)];
      return Ok(FilledV3Relay(rd, repaymentChainId, repaymentAddress, rd.outputAmount, fillType));
    }

    method CloseFillPda(now: u32, signer: Pubkey, relayHash: Hash, rd: RelayData) returns (r: Result<Event, Error>)
      modifies this`fills
      ensures Did(r, Spoke.CloseFillPda(env, old(Snapshot()), now, signer, relayHash, rd))
    {
      if relayHash !in fills {
        return Err(AccountNotInitialized);
      }
      if fills[relayHash].relayer != signer {
        return Err(NotRelayer);
      }
      var expected := GetV3RelayHash(env.keccak, rd, state.chainId);
      if relayHash != expected {
        return Err(InvalidRelayHash);
      }
      if now <= rd.fillDeadline {
        return Err(CanOnlyCloseFillStatusPdaIfFillDeadlinePassed);
      }
      fills := fills - {relayHash};
      return Ok(Silent);
    }

    method RequestV3SlowFill(now: u32, signer: Pubkey, relayHash: Hash, rd: RelayData) returns (r: Result<Event, Error>)
      modifies this`fills
      ensures Did(r, Spoke.RequestV3SlowFill(env, old(Snapshot()), now, signer, relayHash, rd))
    {
      if state.pausedFills {
        return Err(FillsArePaused);
      }
      OpenFillStatus(relayHash);
      var expected := GetV3RelayHash(env.keccak, rd, state.chainId);
      if relayHash != expected {
        return Err(InvalidRelayHash);
      }
      if rd.exclusivityDeadline >= now {
        return Err(NoSlowFillsInExclusivityWindow);
      }
      if rd.fillDeadline < now {
        return Err(ExpiredFillDeadline);
      }
      if fills[relayHash].status != Unfilled {
        return Err(InvalidSlowFillRequest);
      }
      fills := fills[relayHash := fills[relayHash].(status := RequestedSlowFill)];
      fills := fills[relayHash := fills[relayHash].(relayer := signer)];
      return Ok(RequestedV3SlowFill(rd));
    }

    method ExecuteV3SlowRelayLeaf(now: u32, relayHash: Hash, rd: RelayData, updatedOutputAmount: u64, bundleId: u32,
                                  proof: seq<Hash>) returns (r: Result<Event, Error>)
      modifies this`tokens, this`fills
      ensures Did(r, Spoke.ExecuteV3SlowRelayLeaf(env, old(Snapshot()), now, relayHash, rd, updatedOutputAmount,
                                                  bundleId, proof))
    {
      var vault := VaultFor(env, rd.outputToken);
      if bundleId !in bundles || relayHash !in fills {
        return Err(AccountNotInitialized);
      }
      var expected := GetV3RelayHash(env.keccak, rd, state.chainId);
      if relayHash != expected {
        return Err(InvalidRelayHash);
      }
      if !AtaOk(env, Book(), rd.recipient, rd.outputToken) || !VaultOk(env, Book(), rd.outputToken) {
        return Err(TokenConstraint);
      }
      var bytes := SlowFillToBytes(rd, state.chainId, updatedOutputAmount);
      var computed := Merkle.ProcessProofLoop(env.keccak, proof, env.keccak(bytes));
      if computed != bundles[bundleId].slowRelayRoot {
        return Err(InvalidMerkleProof);
      }
      if rd.fillDeadline < now {
        return Err(ExpiredFillDeadline);
      }
      if fills[relayHash].status == Filled {
        return Err(RelayFilled);
      }
      var failure := TransferChecked(vault.key, env.ata(rd.recipient, rd.outputToken), vault.mint, vault.authority,
                                     updatedOutputAmount);
      if failure.Some? {
        return Err(failure.value);
      }
      fills := fills[relayHash := fills[relayHash].(status := Filled)];
      return Ok(FilledV3Relay(rd, 0, DEFAULT_PUBKEY, updatedOutputAmount, SlowFill));
    }

    /** One entry: a transfer out of the vault, or an increment of the claim account. */
    method PayRefund(infos: seq<AccountInfo>, i: nat, mint: Pubkey, payee: Pubkey, amount: u64)
      returns (r: Result<bool, Error>)
      modifies this`tokens, this`claims
      ensures match PayOne(VaultFor(env, mint), old(Book()), infos, i, payee, amount)
              case Ok(ledger) => Book() == ledger && r == Ok(DeferredAt(infos, i))
              case Err(error) => r == Err(error)
    {
      var vault := VaultFor(env, mint);
      var account := TryFromRemainingAccount(Book(), infos, i, payee, mint);
      match account {
        case Err(error) =>
          return Err(error);
        case Ok(PayToken(token)) =>
          var failure := TransferChecked(vault.key, token, vault.mint, vault.authority, amount);
          if failure.Some? {
            return Err(failure.value);
          }
          return Ok(false);
        case Ok(PayClaim(claim)) =>
          if claims[claim].amount + amount > U64_MAX {
            return Err(ArithmeticOverflow);
          }
          claims := claims[claim := claims[claim].(amount := claims[claim].amount + amount)];
          return Ok(true);
      }
    }

    /** The loop over the leaf's entries; a failure leaves the entries before it paid. */
    method PayRefunds(leaf: RefundLeaf, infos: seq<AccountInfo>) returns (r: Result<bool, Error>)
      requires EqualLengths(leaf)
      modifies this`tokens, this`claims
      ensures match PayFirst(VaultFor(env, leaf.mint), old(Book()), leaf, infos, |leaf.refundAmounts|)
              case Ok(ledger) => Book() == ledger && r == Ok(AnyDeferred(infos, |leaf.refundAmounts|))
              case Err(error) => r == Err(error)
    {
      var deferredRefunds, vault, n := false, VaultFor(env, leaf.mint), |leaf.refundAmounts|;
      for i := 0 to n
        invariant PayFirst(vault, old(Book()), leaf, infos, i) == Ok(Book())
        invariant deferredRefunds <==> AnyDeferred(infos, i)
      {
        PayFirstStops(vault, old(Book()), leaf, infos, i + 1, n);
        var paid := PayRefund(infos, i, leaf.mint, leaf.refundAccounts[i], leaf.refundAmounts[i]);
        if paid.Err? {
          return Err(paid.error);
        }
        if paid.value {
          deferredRefunds := true;
        }
      }
      return Ok(deferredRefunds);
    }

    /** The account constraints of a refund, which grow the bundle and open the liability account. */
    method LoadRefundAccounts(bundleId: u32, leaf: RefundLeaf) returns (failure: Option<Error>)
      modifies this`bundles, this`liability
      ensures failure == if bundleId !in old(bundles) then Some(AccountNotInitialized)
                         else if !VaultOk(env, Book(), leaf.mint) then Some(TokenConstraint)
                         else None
      ensures failure == None ==>
                && bundles == old(bundles)[bundleId := old(bundles)[bundleId].(
                     dataLen := Bitmap.Reallocated(old(bundles)[bundleId].dataLen, leaf.leafId))]
                && liability == old(liability)[leaf.mint := PendingToHubPool(old(Snapshot()), leaf.mint)]
    {
      if bundleId !in bundles {
        return Some(AccountNotInitialized);
      }
      bundles := bundles[bundleId := bundles[bundleId].(
                           dataLen := Bitmap.Reallocated(bundles[bundleId].dataLen, leaf.leafId))];
      if !VaultOk(env, Book(), leaf.mint) {
        return Some(TokenConstraint);
      }
      // init_if_needed
      if leaf.mint !in liability {
        liability := liability[leaf.mint := 0];
      }
      return None;
    }

    /** Verifies the leaf, and claims it before its arrays are compared. */
    method ClaimLeaf(bundleId: u32, leaf: RefundLeaf, proof: seq<Hash>) returns (failure: Option<Error>)
      requires bundleId in bundles
      modifies this`bundles
      ensures var bundle := old(bundles)[bundleId];
              && failure == (if Merkle.ProcessProof(env.keccak, env.keccak(RefundLeafBytes(leaf)), proof)
                                != bundle.relayerRefundRoot then Some(InvalidMerkleProof)
                             else if leaf.chainId != state.chainId then Some(InvalidChainId)
                             else if Bitmap.IsClaimed(bundle.claimedBitmap, leaf.leafId) then Some(ClaimedMerkleLeaf)
                             else if !EqualLengths(leaf) then Some(InvalidMerkleLeaf)
                             else None)
              && (failure == None ==>
                    bundles == old(bundles)[bundleId := bundle.(
                      claimedBitmap := Bitmap.SetClaimed(bundle.claimedBitmap, leaf.leafId))])
    {
      var bytes := RefundLeafToBytes(leaf);
      var computed := Merkle.ProcessProofLoop(env.keccak, proof, env.keccak(bytes));
      if computed != bundles[bundleId].relayerRefundRoot {
        return Some(InvalidMerkleProof);
      }
      if leaf.chainId != state.chainId {
        return Some(InvalidChainId);
      }
      var bitmap := new Bitmap.ClaimedBitmap(bundles[bundleId].claimedBitmap);
      var claimed := bitmap.IsSet(leaf.leafId);
      if claimed {
        return Some(ClaimedMerkleLeaf);
      }
      bitmap.Set(leaf.leafId);
      bundles := bundles[bundleId := bundles[bundleId].(claimedBitmap := bitmap.bytes)];
      if |leaf.refundAccounts| != |leaf.refundAmounts| {
        return Some(InvalidMerkleLeaf);
      }
      return None;
    }

    method AddLiability(mint: Pubkey, amount: u64) returns (failure: Option<Error>)
      requires mint in liability
      modifies this`liability
      ensures var pending := old(liability)[mint] + amount;
              if pending > U64_MAX then failure == Some(ArithmeticOverflow)
              else failure == None && liability == old(liability)[mint := pending]
    {
      if amount > 0 {
        if liability[mint] + amount > U64_MAX {
          return Some(ArithmeticOverflow);
        }
        liability := liability[mint := liability[mint] + amount];
      }
      return None;
    }

    /** Everything that comes before the payments; what they will do does not matter to it. */
    method AdmitLeaf(bundleId: u32, leaf: RefundLeaf, proof: seq<Hash>, ghost signer: Pubkey,
                     ghost infos: seq<AccountInfo>) returns (failure: Option<Error>)
      modifies this`bundles, this`liability
      ensures var outcome := Spoke.ExecuteRelayerRefundLeaf(env, old(Snapshot()), signer, bundleId, leaf, proof, infos);
              match failure
              case Some(error) => outcome == Err(error)
              case None =>
                && bundleId in old(bundles) && EqualLengths(leaf)
                && bundles == old(bundles)[bundleId := MarkClaimed(old(bundles)[bundleId], leaf.leafId)]
                && liability == old(liability)[leaf.mint := PendingToHubPool(old(Snapshot()), leaf.mint)]
                && outcome == PayAdmitted(env, old(Snapshot()), signer, bundleId, leaf, infos)
    {
      failure := LoadRefundAccounts(bundleId, leaf);
      if failure.None? {
        failure := ClaimLeaf(bundleId, leaf, proof);
      }
    }

    /** Pays a leaf admitted in the accounts a. */
    method PayLeaf(signer: Pubkey, bundleId: u32, leaf: RefundLeaf, infos: seq<AccountInfo>, ghost a: Accounts)
      returns (r: Result<Event, Error>)
      requires bundleId in a.bundles && EqualLengths(leaf)
      requires state == a.state && Book() == a.ledger && fills == a.fills && routes == a.routes
      requires bundles == a.bundles[bundleId := MarkClaimed(a.bundles[bundleId], leaf.leafId)]
      requires liability == a.liability[leaf.mint := PendingToHubPool(a, leaf.mint)]
      modifies this`tokens, this`claims, this`liability
      ensures Did(r, PayAdmitted(env, a, signer, bundleId, leaf, infos))
    {
      var paid := PayRefunds(leaf, infos);
      if paid.Err? {
        return Err(paid.error);
      }
      assert Book() == PayFirst(VaultFor(env, leaf.mint), a.ledger, leaf, infos, |leaf.refundAmounts|).value;
      var failure := AddLiability(leaf.mint, leaf.amountToReturn);
      if failure.Some? {
        return Err(failure.value);
      }
      assert liability == a.liability[leaf.mint := PendingToHubPool(a, leaf.mint) + leaf.amountToReturn];
      return Ok(ExecutedRelayerRefundRoot(bundleId, leaf, paid.value, signer));
    }

    method ExecuteRelayerRefundLeaf(signer: Pubkey, bundleId: u32, leaf: RefundLeaf, proof: seq<Hash>,
                                    infos: seq<AccountInfo>) returns (r: Result<Event, Error>)
      modifies this`tokens, this`claims, this`bundles, this`liability
      ensures Did(r, Spoke.ExecuteRelayerRefundLeaf(env, old(Snapshot()), signer, bundleId, leaf, proof, infos))
    {
      var failure := AdmitLeaf(bundleId, leaf, proof, signer, infos);
      if failure.Some? {
        return Err(failure.value);
      }
      r := PayLeaf(signer, bundleId, leaf, infos, old(Snapshot()));
    }

    method InitializeClaimAccount(signer: Pubkey, key: ClaimKey) returns (r: Result<Event, Error>)
      modifies this`claims
      ensures Did(r, Spoke.InitializeClaimAccount(old(Snapshot()), signer, key))
    {
      if key in claims {
        return Err(AccountAlreadyInUse);
      }
      claims := claims[key := ClaimAccount(0, DEFAULT_PUBKEY)];
      claims := claims[key := claims[key].(initializer := signer)];
      return Ok(Silent);
    }

    method ClaimRelayerRefund(initializer: Pubkey, key: ClaimKey) returns (r: Result<Event, Error>)
      modifies this`tokens, this`claims
      ensures Did(r, Spoke.ClaimRelayerRefund(env, old(Snapshot()), initializer, key))
    {
      var vault := VaultFor(env, key.mint);
      if key !in claims {
        return Err(AccountNotInitialized);
      }
      if claims[key].initializer != initializer {
        return Err(InvalidClaimInitializer);
      }
      if !VaultOk(env, Book(), key.mint) || key.tokenAccount !in tokens || tokens[key.tokenAccount].mint != key.mint {
        return Err(TokenConstraint);
      }
      var claimAmount := claims[key].amount;
      if claimAmount == 0 {
        return Err(ZeroRefundClaim);
      }
      var failure := TransferChecked(vault.key, key.tokenAccount, vault.mint, vault.authority, claimAmount);
      if failure.Some? {
        return Err(failure.value);
      }
      claims := claims - {key};
      return Ok(ClaimedRelayerRefund(key.mint, claimAmount, key.tokenAccount));
    }

    method CloseClaimAccount(signer: Pubkey, key: ClaimKey) returns (r: Result<Event, Error>)
      modifies this`claims
      ensures Did(r, Spoke.CloseClaimAccount(old(Snapshot()), signer, key))
    {
      if key !in claims {
        return Err(AccountNotInitialized);
      }
      if claims[key].initializer != signer {
        return Err(InvalidClaimInitializer);
      }
      if claims[key].amount > 0 {
        return Err(NonZeroRefundClaim);
      }
      claims := claims - {key};
      return Ok(Silent);
    }

    /** The debt is lowered before the burn, which may still fail. */
    method BridgeTokensToHubPool(mint: Pubkey, amount: u64) returns (r: Result<Event, Error>)
      modifies this`tokens, this`liability
      ensures Did(r, Spoke.BridgeTokensToHubPool(env, old(Snapshot()), mint, amount))
    {
      var vault := VaultFor(env, mint);
      if mint !in liability {
        return Err(AccountNotInitialized);
      }
      if !VaultOk(env, Book(), mint) {
        return Err(TokenConstraint);
      }
      if amount > liability[mint] {
        return Err(ExceededPendingBridgeAmount);
      }
      liability := liability[mint := liability[mint] - amount];
      if tokens[vault.key].amount < amount {
        return Err(InsufficientFunds);
      }
      tokens := tokens[vault.key := tokens[vault.key].(amount := tokens[vault.key].amount - amount)];
      return Ok(BridgedToHubPool(amount, mint));
    }

    // ---------- Administration ----------

    method SetEnableRoute(route: RouteKey, enabled: bool, mintAccount: Pubkey) returns (r: Result<Event, Error>)
      modifies this`tokens, this`routes
      ensures Did(r, SetEnableRouteStep(env, old(Snapshot()), route, enabled, mintAccount))
    {
      var vault := VaultFor(env, mintAccount);
      // init_if_needed
      if route !in routes {
        routes := routes[route := false];
      }
      if vault.key !in tokens {
        tokens := tokens[vault.key := TokenAccount(mintAccount, vault.authority, 0)];
      }
      if !VaultOk(env, Book(), mintAccount) {
        return Err(TokenConstraint);
      }
      if mintAccount != route.originToken {
        return Err(InvalidMint);
      }
      routes := routes[route := enabled];
      return Ok(EnabledDepositRoute(route, enabled));
    }

    method RelayRootBundle(relayerRefundRoot: Hash, slowRelayRoot: Hash) returns (r: Result<Event, Error>)
      modifies this`bundles, this`state
      ensures Did(r, RelayRootBundleStep(old(Snapshot()), relayerRefundRoot, slowRelayRoot))
    {
      var id := state.rootBundleId;
      if id in bundles {
        return Err(AccountAlreadyInUse);
      }
      bundles := bundles[id := Spoke.RootBundle(DEFAULT_PUBKEY, DEFAULT_PUBKEY, [], Bitmap.INITIAL_DATA_LEN)];
      bundles := bundles[id := bundles[id].(relayerRefundRoot := relayerRefundRoot)];
      bundles := bundles[id := bundles[id].(slowRelayRoot := slowRelayRoot)];
      if state.rootBundleId == U32_MAX {
        return Err(ArithmeticOverflow);
      }
      state := state.(rootBundleId := state.rootBundleId + 1);
      return Ok(RelayedRootBundle(id, relayerRefundRoot, slowRelayRoot));
    }

    method Administer(signer: Pubkey, call: AdminCall, mintAccount: Pubkey) returns (r: Result<Event, Error>)
      modifies this`tokens, this`bundles, this`state, this`routes
      ensures Did(r, Spoke.Administer(env, old(Snapshot()), signer, call, mintAccount))
    {
      if !IsLocalOrRemoteOwner(env, Snapshot(), signer) {
        return Err(NotOwner);
      }
      match call {
        case PauseDeposits(pause) =>
          state := state.(pausedDeposits := pause);
          r := Ok(PausedDeposits(pause));
        case PauseFills(pause) =>
          state := state.(pausedFills := pause);
          r := Ok(PausedFills(pause));
        case SetCrossDomainAdmin(admin) =>
          state := state.(crossDomainAdmin := admin);
          r := Ok(SetXDomainAdmin(admin));
        case SetEnableRoute(token, chain, enabled) =>
          r := SetEnableRoute(RouteKey(token, chain), enabled, mintAccount);
        case RelayRootBundle(refundRoot, slowRoot) =>
          r := RelayRootBundle(refundRoot, slowRoot);
        case EmergencyDeleteRootBundle(id) =>
          if id !in bundles {
            return Err(AccountNotInitialized);
          }
          bundles := bundles - {id};
          r := Ok(DeletedRootBundle(id));
      }
    }

    method TransferOwnership(signer: Pubkey, newOwner: Pubkey) returns (r: Result<Event, Error>)
      modifies this`state
      ensures Did(r, Spoke.TransferOwnership(old(Snapshot()), signer, newOwner))
    {
      if signer != state.owner {
        return Err(NotOwner);
      }
      state := state.(owner := newOwner);
      return Ok(Silent);
    }

    method HandleReceiveMessage(transmitterSigned: bool, remoteDomain: u32, sender: Pubkey, body: Bytes,
                                mintAccount: Pubkey) returns (r: Result<Event, Error>)
      modifies this`tokens, this`bundles, this`state, this`routes
      ensures Did(r, Spoke.HandleReceiveMessage(env, old(Snapshot()), transmitterSigned, remoteDomain, sender, body,
                                                mintAccount))
    {
      if !transmitterSigned {
        return Err(MissingSignature);
      }
      if remoteDomain != state.remoteDomain {
        return Err(InvalidRemoteDomain);
      }
      if sender != state.crossDomainAdmin {
        return Err(InvalidRemoteSender);
      }
      var data := Translate(env.tags, body);
      if data.Err? {
        return Err(InvalidMessage);
      }
      var call := Dispatch(env.tags, data.value);
      if call.None? {
        return Err(InvalidMessage);
      }
      r := Administer(env.selfAuthority, call.value, mintAccount);
    }

    // ---------- The runtime ----------

    method Dispatched(now: u32, step: Step) returns (r: Result<Event, Error>)
      modifies this`state, this`tokens, this`claims, this`fills, this`bundles, this`liability, this`routes
      ensures Did(r, Apply(env, old(Snapshot()), now, step))
    {
      if step.signer == env.statePda || step.signer == env.selfAuthority {
        return Err(MissingSignature);
      }
      match step {
        case Deposit(signer, userToken, args) =>
          r := DepositV3(now, signer, userToken, args);
        case Fill(signer, relayHash, rd, chain, address, relayerToken) =>
          r := FillV3Relay(now, signer, relayHash, rd, chain, address, relayerToken);
        case CloseFill(signer, relayHash, rd) =>
          r := CloseFillPda(now, signer, relayHash, rd);
        case RequestSlowFill(signer, relayHash, rd) =>
          r := RequestV3SlowFill(now, signer, relayHash, rd);
        case ExecuteSlowFill(_, relayHash, rd, amount, bundleId, proof) =>
          r := ExecuteV3SlowRelayLeaf(now, relayHash, rd, amount, bundleId, proof);
        case ExecuteRefund(signer, bundleId, leaf, proof, infos) =>
          r := ExecuteRelayerRefundLeaf(signer, bundleId, leaf, proof, infos);
        case InitializeClaim(signer, key) =>
          r := InitializeClaimAccount(signer, key);
        case Claim(_, initializer, key) =>
          r := ClaimRelayerRefund(initializer, key);
        case CloseClaim(signer, key) =>
          r := CloseClaimAccount(signer, key);
        case Bridge(_, mint, amount) =>
          r := BridgeTokensToHubPool(mint, amount);
        case Admin(signer, call, mintAccount) =>
          r := Administer(signer, call, mintAccount);
        case TransferOwner(signer, newOwner) =>
          r := TransferOwnership(signer, newOwner);
        case Receive(_, signed, domain, sender, body, mintAccount) =>
          r := HandleReceiveMessage(signed, domain, sender, body, mintAccount);
        case External(_, key, account) =>
          var outcome := ExternalStep(env, Snapshot(), key, account);
          if outcome.Err? {
            return Err(outcome.error);
          }
          tokens := tokens[key := account];
          r := Ok(Silent);
      }
    }

    /** A transaction: a failed instruction is rolled back, whatever it had already changed. */
    method Process(t: Transaction) returns (r: Result<Event, Error>)
      modifies this
      ensures World() == Next(env, old(World()), t)
      ensures r.Err? ==> Snapshot() == old(Snapshot()) && log == old(log)
    {
      var before := Snapshot();
      clock := t.now;
      r := Dispatched(t.now, t.step);
      match r {
        case Ok(event) =>
          log := log + [Entry(t.now, t.step, before, event)];
        case Err(_) =>
          state, tokens, claims := before.state, before.ledger.tokens, before.ledger.claims;
          fills, bundles, liability, routes := before.fills, before.bundles, before.liability, before.routes;
      }
    }

    /** Any list of transactions takes the program through the run that the steps define. */
    method ProcessAll(ts: seq<Transaction>)
      modifies this
      ensures World() == Run(env, old(World()), ts)
    {
      for i := 0 to |ts|
        invariant Run(env, World(), ts[i..]) == Run(env, old(World()), ts)
      {
        assert ts[i..][0] == ts[i] && ts[i..][1..] == ts[i + 1..];
        var _ := Process(ts[i]);
      }
    }
  }
}
