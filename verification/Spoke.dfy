/**
 The program's instructions as atomic steps on its accounts. A step either fails, and then changes
 nothing, or yields the accounts afterwards and the event it emits.
 */
module Spoke {
  import opened Binary
  import opened Results
  import opened Leaves
  import opened Ledger
  import opened CallData
  import Bitmap
  import Merkle

  // ---------- Accounts ----------

  datatype FillStatus = Unfilled | RequestedSlowFill | Filled

  datatype FillStatusAccount = FillStatusAccount(status: FillStatus, relayer: Pubkey)

  datatype RootBundle = RootBundle(relayerRefundRoot: Hash, slowRelayRoot: Hash, claimedBitmap: seq<bv8>, dataLen: nat)

  datatype State = State(
    pausedDeposits: bool, pausedFills: bool, owner: Pubkey, numberOfDeposits: u32, chainId: u64,
    remoteDomain: u32, crossDomainAdmin: Pubkey, rootBundleId: u32,
    depositQuoteTimeBuffer: u32, fillDeadlineBuffer: u32)

  datatype RouteKey = RouteKey(originToken: Pubkey, destinationChainId: u64)

  /** Every account the program owns or moves tokens of. */
  datatype Accounts = Accounts(
    state: State, ledger: Ledger,
    fills: map<Hash, FillStatusAccount>, bundles: map<u32, RootBundle>,
    liability: map<Pubkey, u64>, routes: map<RouteKey, bool>)

  /** What the program relies on and does not define: the hash, account derivation, its own authorities. */
  datatype Env = Env(
    keccak: Hasher, ata: (Pubkey, Pubkey) -> Pubkey, statePda: Pubkey, selfAuthority: Pubkey, tags: Table)

  const DEFAULT_PUBKEY: Pubkey := Zeros(32)

  // ---------- Events ----------

  datatype FillType = FastFill | ReplacedSlowFill | SlowFill

  datatype DepositArgs = DepositArgs(
    depositor: Pubkey, recipient: Pubkey, inputToken: Pubkey, outputToken: Pubkey,
    inputAmount: u64, outputAmount: u64, destinationChainId: u64, exclusiveRelayer: Pubkey,
    quoteTimestamp: u32, fillDeadline: u32, exclusivityDeadline: u32, message: Message)

  datatype Event =
    | V3FundsDeposited(args: DepositArgs, depositId: u32)
    | FilledV3Relay(filled: RelayData, repaymentChainId: u64, relayer: Pubkey,
                    updatedOutputAmount: u64, fillType: FillType)
    | RequestedV3SlowFill(requested: RelayData)
    | ExecutedRelayerRefundRoot(bundleId: u32, leaf: RefundLeaf, deferredRefunds: bool, caller: Pubkey)
    | ClaimedRelayerRefund(claimedMint: Pubkey, claimAmount: u64, refundAddress: Pubkey)
    | BridgedToHubPool(amount: u64, bridgedMint: Pubkey)
    | RelayedRootBundle(relayedId: u32, relayerRefundRoot: Hash, slowRelayRoot: Hash)
    | DeletedRootBundle(deletedId: u32)
    | PausedDeposits(depositsPaused: bool)
    | PausedFills(fillsPaused: bool)
    | SetXDomainAdmin(newAdmin: Pubkey)
    | EnabledDepositRoute(route: RouteKey, enabled: bool)
    | Silent

  datatype Post = Post(accounts: Accounts, event: Event)

  type Outcome = Result<Post, Error>

  // ---------- Account constraints ----------

  function VaultFor(env: Env, mint: Pubkey): Vault
  {
    Vault(env.ata(env.statePda, mint), env.statePda, mint)
  }

  /** An account of the mint under the authority. */
  predicate TokenOk(l: Ledger, key: Pubkey, mint: Pubkey, authority: Pubkey)
  {
    key in l.tokens && l.tokens[key].mint == mint && l.tokens[key].authority == authority
  }

  /** The associated token account of an owner exists and is still the owner's. */
  predicate AtaOk(env: Env, l: Ledger, owner: Pubkey, mint: Pubkey)
  {
    TokenOk(l, env.ata(owner, mint), mint, owner)
  }

  predicate VaultOk(env: Env, l: Ledger, mint: Pubkey)
  {
    AtaOk(env, l, env.statePda, mint)
  }

  function RelayHash(env: Env, a: Accounts, rd: RelayData): Hash
  {
    env.keccak(RelayPreimage(rd, a.state.chainId))
  }

  predicate IsLocalOrRemoteOwner(env: Env, a: Accounts, signer: Pubkey)
  {
    signer == a.state.owner || signer == env.selfAuthority
  }

  // ---------- Users ----------

  function Initialize(tokens: map<Pubkey, TokenAccount>, claims: map<ClaimKey, ClaimAccount>, signer: Pubkey,
                      seed: u64, initialNumberOfDeposits: u32, chainId: u64, remoteDomain: u32,
                      crossDomainAdmin: Pubkey, depositQuoteTimeBuffer: u32, fillDeadlineBuffer: u32)
    : Result<Accounts, Error>
  {
    if seed != 0 then Err(InvalidProductionSeed)
    else Ok(Accounts(
              State(false, false, signer, initialNumberOfDeposits, chainId, remoteDomain, crossDomainAdmin, 0,
                    depositQuoteTimeBuffer, fillDeadlineBuffer),
              Ledger(tokens, claims), map[], map[], map[], map[]))
  }

  /** The checks on a deposit's times, in the order in which they are made. */
  function CheckDepositTimes(state: State, now: u32, quoteTimestamp: u32, fillDeadline: u32): Result<bool, Error>
  {
    if now < quoteTimestamp then Err(ArithmeticOverflow)
    else if now - quoteTimestamp > state.depositQuoteTimeBuffer then Err(InvalidQuoteTimestamp)
    else if fillDeadline < now then Err(InvalidFillDeadline)
    else if now + state.fillDeadlineBuffer > U32_MAX then Err(ArithmeticOverflow)
    else if fillDeadline > now + state.fillDeadlineBuffer then Err(InvalidFillDeadline)
    else Ok(true)
  }

  function DepositV3(env: Env, a: Accounts, now: u32, signer: Pubkey, userToken: Pubkey, args: DepositArgs): Outcome
  {
    var route := RouteKey(args.inputToken, args.destinationChainId);
    if a.state.pausedDeposits then Err(DepositsArePaused)
    else if route !in a.routes then Err(AccountNotInitialized)
    else if !TokenOk(a.ledger, userToken, args.inputToken, signer) then Err(TokenConstraint)
    else if !VaultOk(env, a.ledger, args.inputToken) then Err(TokenConstraint)
    else if !a.routes[route] then Err(DisabledRoute)
    else
      var _ :- CheckDepositTimes(a.state, now, args.quoteTimestamp, args.fillDeadline);
      var vault := VaultFor(env, args.inputToken);
      var ledger :- Transfer(a.ledger, userToken, vault.key, vault.mint, signer, args.inputAmount);
      if a.state.numberOfDeposits == U32_MAX then Err(ArithmeticOverflow)
      else
        var id := a.state.numberOfDeposits + 1;
        Ok(Post(a.(ledger := ledger, state := a.state.(numberOfDeposits := id)), V3FundsDeposited(args, id)))
  }

  // ---------- Relayers ----------

  function FillV3Relay(env: Env, a: Accounts, now: u32, signer: Pubkey, relayHash: Hash, rd: RelayData,
                       repaymentChainId: u64, repaymentAddress: Pubkey, relayerToken: Pubkey): Outcome
  {
    var recipientToken := env.ata(rd.recipient, rd.outputToken);
    if a.state.pausedFills then Err(FillsArePaused)
    else if !TokenOk(a.ledger, relayerToken, rd.outputToken, signer) then Err(TokenConstraint)
    else if !AtaOk(env, a.ledger, rd.recipient, rd.outputToken) then Err(TokenConstraint)
    else if relayHash != RelayHash(env, a, rd) then Err(InvalidRelayHash)
    else if rd.exclusiveRelayer != signer && rd.exclusivityDeadline >= now && rd.exclusiveRelayer != DEFAULT_PUBKEY
    then Err(NotExclusiveRelayer)
    else if rd.fillDeadline < now then Err(ExpiredFillDeadline)
    else
      var status := if relayHash in a.fills then a.fills[relayHash].status else Unfilled;
      if status == Filled then Err(RelayFilled)
      else
        var fillType := if status == RequestedSlowFill then ReplacedSlowFill else FastFill;
        var ledger :- if relayerToken == recipientToken then Ok(a.ledger)
                      else Transfer(a.ledger, relayerToken, recipientToken, rd.outputToken, signer, rd.outputAmount);
        Ok(Post(a.(ledger := ledger, fills := a.fills[relayHash := FillStatusAccount(Filled, signer)]),
                FilledV3Relay(rd, repaymentChainId, repaymentAddress, rd.outputAmount, fillType)))
  }

  function CloseFillPda(env: Env, a: Accounts, now: u32, signer: Pubkey, relayHash: Hash, rd: RelayData): Outcome
  {
    if relayHash !in a.fills then Err(AccountNotInitialized)
    else if a.fills[relayHash].relayer != signer then Err(NotRelayer)
    else if relayHash != RelayHash(env, a, rd) then Err(InvalidRelayHash)
    else if now <= rd.fillDeadline then Err(CanOnlyCloseFillStatusPdaIfFillDeadlinePassed)
    else Ok(Post(a.(fills := a.fills - {relayHash}), Silent))
  }

  // ---------- Slow fills ----------

  function RequestV3SlowFill(env: Env, a: Accounts, now: u32, signer: Pubkey, relayHash: Hash, rd: RelayData): Outcome
  {
    if a.state.pausedFills then Err(FillsArePaused)
    else if relayHash != RelayHash(env, a, rd) then Err(InvalidRelayHash)
    else if rd.exclusivityDeadline >= now then Err(NoSlowFillsInExclusivityWindow)
    else if rd.fillDeadline < now then Err(ExpiredFillDeadline)
    else if relayHash in a.fills && a.fills[relayHash].status != Unfilled then Err(InvalidSlowFillRequest)
    else Ok(Post(a.(fills := a.fills[relayHash := FillStatusAccount(RequestedSlowFill, signer)]),
                 RequestedV3SlowFill(rd)))
  }

  function ExecuteV3SlowRelayLeaf(env: Env, a: Accounts, now: u32, relayHash: Hash, rd: RelayData,
                                  updatedOutputAmount: u64, bundleId: u32, proof: seq<Hash>): Outcome
  {
    var leaf := env.keccak(SlowFillBytes(rd, a.state.chainId, updatedOutputAmount));
    var vault := VaultFor(env, rd.outputToken);
    if bundleId !in a.bundles || relayHash !in a.fills then Err(AccountNotInitialized)
    else if relayHash != RelayHash(env, a, rd) then Err(InvalidRelayHash)
    else if !AtaOk(env, a.ledger, rd.recipient, rd.outputToken) then Err(TokenConstraint)
    else if !VaultOk(env, a.ledger, rd.outputToken) then Err(TokenConstraint)
    else if Merkle.ProcessProof(env.keccak, leaf, proof) != a.bundles[bundleId].slowRelayRoot
    then Err(InvalidMerkleProof)
    else if rd.fillDeadline < now then Err(ExpiredFillDeadline)
    else if a.fills[relayHash].status == Filled then Err(RelayFilled)
    else
      var recipientToken := env.ata(rd.recipient, rd.outputToken);
      var ledger :- Transfer(a.ledger, vault.key, recipientToken, vault.mint, vault.authority, updatedOutputAmount);
      Ok(Post(a.(ledger := ledger, fills := a.fills[relayHash := a.fills[relayHash].(status := Filled)]),
              FilledV3Relay(rd, 0, DEFAULT_PUBKEY, updatedOutputAmount, SlowFill)))
  }

  // ---------- Refunds ----------

  function MarkClaimed(bundle: RootBundle, leafId: u32): RootBundle
  {
    bundle.(claimedBitmap := Bitmap.SetClaimed(bundle.claimedBitmap, leafId),
            dataLen := Bitmap.Reallocated(bundle.dataLen, leafId))
  }

  function PendingToHubPool(a: Accounts, mint: Pubkey): u64
  {
    if mint in a.liability then a.liability[mint] else 0
  }

  /** What is left of a refund execution once the leaf is admitted. */
  function PayAdmitted(env: Env, a: Accounts, signer: Pubkey, bundleId: u32, leaf: RefundLeaf,
                       infos: seq<AccountInfo>): Outcome
    requires bundleId in a.bundles && EqualLengths(leaf)
  {
    var ledger :- PayFirst(VaultFor(env, leaf.mint), a.ledger, leaf, infos, |leaf.refundAmounts|);
    var pending := PendingToHubPool(a, leaf.mint) + leaf.amountToReturn;
    if pending > U64_MAX then Err(ArithmeticOverflow)
    else
      Ok(Post(a.(ledger := ledger,
                 bundles := a.bundles[bundleId := MarkClaimed(a.bundles[bundleId], leaf.leafId)],
                 liability := a.liability[leaf.mint := pending]),
              ExecutedRelayerRefundRoot(bundleId, leaf, AnyDeferred(infos, |leaf.refundAmounts|), signer)))
  }

  function ExecuteRelayerRefundLeaf(env: Env, a: Accounts, signer: Pubkey, bundleId: u32, leaf: RefundLeaf,
                                    proof: seq<Hash>, infos: seq<AccountInfo>): Outcome
  {
    if bundleId !in a.bundles then Err(AccountNotInitialized)
    else if !VaultOk(env, a.ledger, leaf.mint) then Err(TokenConstraint)
    else
      var bundle := a.bundles[bundleId];
      if Merkle.ProcessProof(env.keccak, env.keccak(RefundLeafBytes(leaf)), proof) != bundle.relayerRefundRoot
      then Err(InvalidMerkleProof)
      else if leaf.chainId != a.state.chainId then Err(InvalidChainId)
      else if Bitmap.IsClaimed(bundle.claimedBitmap, leaf.leafId) then Err(ClaimedMerkleLeaf)
      else if !EqualLengths(leaf) then Err(InvalidMerkleLeaf)
      else PayAdmitted(env, a, signer, bundleId, leaf, infos)
  }

  function InitializeClaimAccount(a: Accounts, signer: Pubkey, key: ClaimKey): Outcome
  {
    if key in a.ledger.claims then Err(AccountAlreadyInUse)
    else
      var claims := a.ledger.claims[key := ClaimAccount(0, signer)];
      Ok(Post(a.(ledger := a.ledger.(claims := claims)), Silent))
  }

  function ClaimRelayerRefund(env: Env, a: Accounts, initializer: Pubkey, key: ClaimKey): Outcome
  {
    var vault := VaultFor(env, key.mint);
    if key !in a.ledger.claims then Err(AccountNotInitialized)
    else if a.ledger.claims[key].initializer != initializer then Err(InvalidClaimInitializer)
    else if !VaultOk(env, a.ledger, key.mint) then Err(TokenConstraint)
    else if key.tokenAccount !in a.ledger.tokens || a.ledger.tokens[key.tokenAccount].mint != key.mint
    then Err(TokenConstraint)
    else if a.ledger.claims[key].amount == 0 then Err(ZeroRefundClaim)
    else
      var amount := a.ledger.claims[key].amount;
      var ledger :- Transfer(a.ledger, vault.key, key.tokenAccount, vault.mint, vault.authority, amount);
      Ok(Post(a.(ledger := ledger.(claims := ledger.claims - {key})),
              ClaimedRelayerRefund(key.mint, amount, key.tokenAccount)))
  }

  function CloseClaimAccount(a: Accounts, signer: Pubkey, key: ClaimKey): Outcome
  {
    if key !in a.ledger.claims then Err(AccountNotInitialized)
    else if a.ledger.claims[key].initializer != signer then Err(InvalidClaimInitializer)
    else if a.ledger.claims[key].amount > 0 then Err(NonZeroRefundClaim)
    else Ok(Post(a.(ledger := a.ledger.(claims := a.ledger.claims - {key})), Silent))
  }

  // ---------- The bridge ----------

  function BridgeTokensToHubPool(env: Env, a: Accounts, mint: Pubkey, amount: u64): Outcome
  {
    var vault := VaultFor(env, mint);
    if mint !in a.liability then Err(AccountNotInitialized)
    else if !VaultOk(env, a.ledger, mint) then Err(TokenConstraint)
    else if amount > a.liability[mint] then Err(ExceededPendingBridgeAmount)
    else if a.ledger.tokens[vault.key].amount < amount then Err(InsufficientFunds)
    else
      var held := a.ledger.tokens[vault.key];
      var tokens := a.ledger.tokens[vault.key := held.(amount := held.amount - amount)];
      Ok(Post(a.(ledger := a.ledger.(tokens := tokens),
                 liability := a.liability[mint := a.liability[mint] - amount]),
              BridgedToHubPool(amount, mint)))
  }

  // ---------- Administration ----------

  function SetEnableRouteStep(env: Env, a: Accounts, route: RouteKey, enabled: bool, mintAccount: Pubkey): Outcome
  {
    var key := env.ata(env.statePda, mintAccount);
    if key in a.ledger.tokens && !VaultOk(env, a.ledger, mintAccount) then Err(TokenConstraint)
    else if mintAccount != route.originToken then Err(InvalidMint)
    else
      var tokens := if key in a.ledger.tokens then a.ledger.tokens
                    else a.ledger.tokens[key := TokenAccount(mintAccount, env.statePda, 0)];
      Ok(Post(a.(ledger := a.ledger.(tokens := tokens), routes := a.routes[route := enabled]),
              EnabledDepositRoute(route, enabled)))
  }

  function RelayRootBundleStep(a: Accounts, relayerRefundRoot: Hash, slowRelayRoot: Hash): Outcome
  {
    var id := a.state.rootBundleId;
    if id in a.bundles then Err(AccountAlreadyInUse)
    else if id == U32_MAX then Err(ArithmeticOverflow)
    else
      var bundle := RootBundle(relayerRefundRoot, slowRelayRoot, [], Bitmap.INITIAL_DATA_LEN);
      Ok(Post(a.(bundles := a.bundles[id := bundle], state := a.state.(rootBundleId := id + 1)),
              RelayedRootBundle(id, relayerRefundRoot, slowRelayRoot)))
  }

  /** An owner's call; mintAccount is the mint account passed along, which only the route call reads. */
  function Administer(env: Env, a: Accounts, signer: Pubkey, call: AdminCall, mintAccount: Pubkey): Outcome
  {
    if !IsLocalOrRemoteOwner(env, a, signer) then Err(NotOwner)
    else
      match call
      case PauseDeposits(pause) =>
        Ok(Post(a.(state := a.state.(pausedDeposits := pause)), PausedDeposits(pause)))
      case PauseFills(pause) =>
        Ok(Post(a.(state := a.state.(pausedFills := pause)), PausedFills(pause)))
      case SetCrossDomainAdmin(admin) =>
        Ok(Post(a.(state := a.state.(crossDomainAdmin := admin)), SetXDomainAdmin(admin)))
      case SetEnableRoute(token, chain, enabled) =>
        SetEnableRouteStep(env, a, RouteKey(token, chain), enabled, mintAccount)
      case RelayRootBundle(refundRoot, slowRoot) =>
        RelayRootBundleStep(a, refundRoot, slowRoot)
      case EmergencyDeleteRootBundle(id) =>
        if id !in a.bundles then Err(AccountNotInitialized)
        else Ok(Post(a.(bundles := a.bundles - {id}), DeletedRootBundle(id)))
  }

  function TransferOwnership(a: Accounts, signer: Pubkey, newOwner: Pubkey): Outcome
  {
    if signer != a.state.owner then Err(NotOwner)
    else Ok(Post(a.(state := a.state.(owner := newOwner)), Silent))
  }

  /** The call a message body stands for: its translation, read back as instruction data. */
  function ReceivedCall(env: Env, body: Bytes): Option<AdminCall>
  {
    match Translate(env.tags, body)
    case Err(_) => None
    case Ok(data) => Dispatch(env.tags, data)
  }

  /** A message from the bridge: authenticate, translate, and invoke the program as its own authority. */
  function HandleReceiveMessage(env: Env, a: Accounts, transmitterSigned: bool, remoteDomain: u32, sender: Pubkey,
                                body: Bytes, mintAccount: Pubkey): Outcome
  {
    if !transmitterSigned then Err(MissingSignature)
    else if remoteDomain != a.state.remoteDomain then Err(InvalidRemoteDomain)
    else if sender != a.state.crossDomainAdmin then Err(InvalidRemoteSender)
    else
      match ReceivedCall(env, body)
      case None => Err(InvalidMessage)
      case Some(call) => Administer(env, a, env.selfAuthority, call, mintAccount)
  }

  // ---------- Steps and runs ----------

  datatype Step =
    | Deposit(signer: Pubkey, userToken: Pubkey, args: DepositArgs)
    | Fill(signer: Pubkey, relayHash: Hash, rd: RelayData, repaymentChainId: u64, repaymentAddress: Pubkey,
           relayerToken: Pubkey)
    | CloseFill(signer: Pubkey, relayHash: Hash, rd: RelayData)
    | RequestSlowFill(signer: Pubkey, relayHash: Hash, rd: RelayData)
    | ExecuteSlowFill(signer: Pubkey, relayHash: Hash, rd: RelayData, updatedOutputAmount: u64, bundleId: u32,
                      proof: seq<Hash>)
    | ExecuteRefund(signer: Pubkey, bundleId: u32, leaf: RefundLeaf, proof: seq<Hash>, infos: seq<AccountInfo>)
    | InitializeClaim(signer: Pubkey, key: ClaimKey)
    | Claim(signer: Pubkey, initializer: Pubkey, key: ClaimKey)
    | CloseClaim(signer: Pubkey, key: ClaimKey)
    | Bridge(signer: Pubkey, mint: Pubkey, amount: u64)
    | Admin(signer: Pubkey, call: AdminCall, mintAccount: Pubkey)
    | TransferOwner(signer: Pubkey, newOwner: Pubkey)
    | Receive(signer: Pubkey, transmitterSigned: bool, remoteDomain: u32, sender: Pubkey, body: Bytes,
              mintAccount: Pubkey)
      /** Anything outside the program that leaves one token account as given. */
    | External(signer: Pubkey, tokenKey: Pubkey, account: TokenAccount)

  /** Outside the program nobody can spend from, or re-assign, an account under the program's authority. */
  function ExternalStep(env: Env, a: Accounts, key: Pubkey, account: TokenAccount): Outcome
  {
    if key in a.ledger.tokens && a.ledger.tokens[key].authority == env.statePda
       && !(account.mint == a.ledger.tokens[key].mint && account.authority == env.statePda
            && account.amount >= a.ledger.tokens[key].amount)
    then Err(MissingSignature)
    else Ok(Post(a.(ledger := a.ledger.(tokens := a.ledger.tokens[key := account])), Silent))
  }

  /** One transaction at time now. Addresses derived by the program have no key and so cannot sign one. */
  function Apply(env: Env, a: Accounts, now: u32, step: Step): Outcome
  {
    if step.signer == env.statePda || step.signer == env.selfAuthority then Err(MissingSignature)
    else
      match step
      case Deposit(signer, userToken, args) => DepositV3(env, a, now, signer, userToken, args)
      case Fill(signer, relayHash, rd, chain, address, relayerToken) =>
        FillV3Relay(env, a, now, signer, relayHash, rd, chain, address, relayerToken)
      case CloseFill(signer, relayHash, rd) => CloseFillPda(env, a, now, signer, relayHash, rd)
      case RequestSlowFill(signer, relayHash, rd) => RequestV3SlowFill(env, a, now, signer, relayHash, rd)
      case ExecuteSlowFill(_, relayHash, rd, amount, bundleId, proof) =>
        ExecuteV3SlowRelayLeaf(env, a, now, relayHash, rd, amount, bundleId, proof)
      case ExecuteRefund(signer, bundleId, leaf, proof, infos) =>
        ExecuteRelayerRefundLeaf(env, a, signer, bundleId, leaf, proof, infos)
      case InitializeClaim(signer, key) => InitializeClaimAccount(a, signer, key)
      case Claim(_, initializer, key) => ClaimRelayerRefund(env, a, initializer, key)
      case CloseClaim(signer, key) => CloseClaimAccount(a, signer, key)
      case Bridge(_, mint, amount) => BridgeTokensToHubPool(env, a, mint, amount)
      case Admin(signer, call, mintAccount) => Administer(env, a, signer, call, mintAccount)
      case TransferOwner(signer, newOwner) => TransferOwnership(a, signer, newOwner)
      case Receive(_, signed, domain, sender, body, mintAccount) =>
        HandleReceiveMessage(env, a, signed, domain, sender, body, mintAccount)
      case External(_, key, account) => ExternalStep(env, a, key, account)
  }

  /** A transaction that went through, when it did, and the event it emitted. */
  datatype Entry = Entry(now: u32, step: Step, before: Accounts, event: Event)

  datatype World = World(accounts: Accounts, clock: u32, log: seq<Entry>)

  datatype Transaction = Transaction(now: u32, step: Step)

  /** The world after a transaction that went through. */
  function After(w: World, t: Transaction, post: Post): World
  {
    World(post.accounts, t.now, w.log + [Entry(t.now, t.step, w.accounts, post.event)])
  }

  function Next(env: Env, w: World, t: Transaction): World
  {
    match Apply(env, w.accounts, t.now, t.step)
    case Err(_) => w.(clock := t.now)
    case Ok(post) => After(w, t, post)
  }

  function Run(env: Env, w: World, ts: seq<Transaction>): World
    decreases |ts|
  {
    if ts == [] then w else Run(env, Next(env, w, ts[0]), ts[1..])
  }

  /** The chain's clock never goes back. */
  predicate Chronological(clock: u32, ts: seq<Transaction>)
    decreases |ts|
  {
    ts != [] ==> clock <= ts[0].now && Chronological(ts[0].now, ts[1..])
  }

  /** A freshly initialized program; claim accounts may already have been opened, but hold nothing. */
  predicate Genesis(w: World)
  {
    var a := w.accounts;
    && w.log == []
    && a.fills == map[] && a.bundles == map[] && a.liability == map[] && a.routes == map[]
    && a.state.rootBundleId == 0
    && forall k :: k in a.ledger.claims ==> a.ledger.claims[k].amount == 0
  }

  /** Initializing, which the production build allows for seed 0 only, gives a genesis. */
  lemma InitializedIsGenesis(tokens: map<Pubkey, TokenAccount>, claims: map<ClaimKey, ClaimAccount>, signer: Pubkey,
                             seed: u64, deposits: u32, chainId: u64, remoteDomain: u32, admin: Pubkey,
                             quoteBuffer: u32, deadlineBuffer: u32, clock: u32)
    requires forall k :: k in claims ==> claims[k].amount == 0
    ensures var r := Initialize(tokens, claims, signer, seed, deposits, chainId, remoteDomain, admin, quoteBuffer,
                                deadlineBuffer);
            && (r.Ok? <==> seed == 0)
            && (r.Err? ==> r.error == InvalidProductionSeed)
            && (r.Ok? ==>
                  var s := r.value.state;
                  && Genesis(World(r.value, clock, []))
                  && r.value.ledger == Ledger(tokens, claims)
                  && !s.pausedDeposits && !s.pausedFills && s.rootBundleId == 0
                  && s.owner == signer && s.crossDomainAdmin == admin && s.remoteDomain == remoteDomain
                  && s.numberOfDeposits == deposits && s.chainId == chainId
                  && s.depositQuoteTimeBuffer == quoteBuffer && s.fillDeadlineBuffer == deadlineBuffer)
  {
  }

  /** w is reached from the genesis w0 by some chronological list of attempted transactions. */
  ghost predicate Reaches(env: Env, w0: World, w: World)
  {
    Genesis(w0) && exists ts :: Chronological(w0.clock, ts) && w == Run(env, w0, ts)
  }
}
