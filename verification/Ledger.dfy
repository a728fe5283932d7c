/** Token accounts, claim accounts, and the two ways in which a refund is paid. */
module Ledger {
  import opened Binary
  import opened Results
  import opened Leaves

  datatype Error =
    | DisabledRoute | InvalidQuoteTimestamp | InvalidFillDeadline | NotExclusiveRelayer
    | NoSlowFillsInExclusivityWindow | RelayFilled | InvalidSlowFillRequest | ExpiredFillDeadline
    | InvalidMerkleProof | InvalidChainId | InvalidMerkleLeaf | ClaimedMerkleLeaf
    | DepositsArePaused | FillsArePaused
    | NotOwner | InvalidRelayHash | CanOnlyCloseFillStatusPdaIfFillDeadlinePassed | NotRelayer
    | InvalidRemoteDomain | InvalidRemoteSender | InvalidMint | ExceededPendingBridgeAmount | InvalidRefund
    | ZeroRefundClaim | NonZeroRefundClaim | InvalidClaimInitializer | InvalidProductionSeed
      // failures raised by the framework, the token program or the runtime
    | AccountNotEnoughKeys | AccountNotInitialized | AccountAlreadyInUse | TokenConstraint
    | InsufficientFunds | ArithmeticOverflow | MissingSignature | InvalidMessage

  datatype TokenAccount = TokenAccount(mint: Pubkey, authority: Pubkey, amount: u64)

  /** Claim accounts are derived from the mint and the token account they stand in for. */
  datatype ClaimKey = ClaimKey(mint: Pubkey, tokenAccount: Pubkey)

  datatype ClaimAccount = ClaimAccount(amount: u64, initializer: Pubkey)

  datatype Ledger = Ledger(tokens: map<Pubkey, TokenAccount>, claims: map<ClaimKey, ClaimAccount>)

  /** An account passed in addition to the named ones. */
  datatype AccountKey = TokenKey(token: Pubkey) | ClaimAccountKey(claim: ClaimKey)

  datatype AccountInfo = AccountInfo(key: AccountKey, isWritable: bool)

  /** transfer_checked: a move of amount between two accounts of one mint, signed by the source's authority. */
  function Transfer(l: Ledger, from: Pubkey, to: Pubkey, mint: Pubkey, authority: Pubkey, amount: u64)
    : Result<Ledger, Error>
  {
    if from !in l.tokens || to !in l.tokens then Err(AccountNotInitialized)
    else if l.tokens[from].mint != mint || l.tokens[to].mint != mint || l.tokens[from].authority != authority
    then Err(TokenConstraint)
    else if l.tokens[from].amount < amount then Err(InsufficientFunds)
    else if from == to then Ok(l)
    else if l.tokens[to].amount + amount > U64_MAX then Err(ArithmeticOverflow)
    else
      var debited := l.tokens[from].(amount := l.tokens[from].amount - amount);
      var credited := l.tokens[to].(amount := l.tokens[to].amount + amount);
      Ok(l.(tokens := l.tokens[from := debited][to := credited]))
  }

  /** A refund account as the program classifies it. */
  datatype RefundAccount = PayToken(token: Pubkey) | PayClaim(claim: ClaimKey)

  function TryTokenAccount(l: Ledger, info: AccountInfo, expectedToken: Pubkey, expectedMint: Pubkey)
    : Option<RefundAccount>
  {
    if !info.key.TokenKey? || info.key.token !in l.tokens then None
    else if !info.isWritable then None
    else if info.key.token != expectedToken then None
    else if l.tokens[info.key.token].mint != expectedMint then None
    else Some(PayToken(info.key.token))
  }

  function TryClaimAccount(l: Ledger, info: AccountInfo, mint: Pubkey, tokenAccount: Pubkey): Option<RefundAccount>
  {
    if !info.key.ClaimAccountKey? || info.key.claim !in l.claims then None
    else if info.key.claim != ClaimKey(mint, tokenAccount) then None
    else if !info.isWritable then None
    else Some(PayClaim(info.key.claim))
  }

  /** Parses remaining account i as the expected token account or, failing that, as its claim account. */
  function TryFromRemainingAccount(l: Ledger, infos: seq<AccountInfo>, i: nat, expectedToken: Pubkey, mint: Pubkey)
    : Result<RefundAccount, Error>
  {
    if i >= |infos| then Err(AccountNotEnoughKeys)
    else
      match TryTokenAccount(l, infos[i], expectedToken, mint)
      case Some(account) => Ok(account)
      case None =>
        match TryClaimAccount(l, infos[i], mint, expectedToken)
        case Some(account) => Ok(account)
        case None => Err(InvalidRefund)
  }

  function CreditClaim(l: Ledger, key: ClaimKey, amount: u64): Result<Ledger, Error>
    requires key in l.claims
  {
    if l.claims[key].amount + amount > U64_MAX then Err(ArithmeticOverflow)
    else Ok(l.(claims := l.claims[key := l.claims[key].(amount := l.claims[key].amount + amount)]))
  }

  /** One refund of a mint, out of the vault or onto a claim account. */
  datatype Vault = Vault(key: Pubkey, authority: Pubkey, mint: Pubkey)

  function PayOne(v: Vault, l: Ledger, infos: seq<AccountInfo>, i: nat, payee: Pubkey, amount: u64)
    : Result<Ledger, Error>
  {
    var account :- TryFromRemainingAccount(l, infos, i, payee, v.mint);
    match account
    case PayToken(token) => Transfer(l, v.key, token, v.mint, v.authority, amount)
    case PayClaim(claim) => CreditClaim(l, claim, amount)
  }

  /** The first n refunds of a leaf, in order. */
  function PayFirst(v: Vault, l: Ledger, leaf: RefundLeaf, infos: seq<AccountInfo>, n: nat): Result<Ledger, Error>
    requires EqualLengths(leaf) && n <= |leaf.refundAmounts|
  {
    if n == 0 then Ok(l)
    else
      var before :- PayFirst(v, l, leaf, infos, n - 1);
      PayOne(v, before, infos, n - 1, leaf.refundAccounts[n - 1], leaf.refundAmounts[n - 1])
  }

  /** Remaining account i is a claim account, so the refund at i is deferred when it is paid at all. */
  predicate DeferredAt(infos: seq<AccountInfo>, i: nat)
  {
    i < |infos| && infos[i].key.ClaimAccountKey?
  }

  predicate AnyDeferred(infos: seq<AccountInfo>, n: nat)
  {
    exists i :: 0 <= i < n && DeferredAt(infos, i)
  }
}
